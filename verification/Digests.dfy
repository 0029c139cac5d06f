/**
 Rolling temporal digests: fixed hour, day and week grids, and a 30-day grid that follows the index
 (src/dsm/collective.py).
 */
module Digests {
  import opened Common
  import opened Calendar
  import opened Collective

  /** Midnights, hours and Mondays are multiples of these, since times count from a Monday midnight. */
  const HOUR: int := 3_600_000_000
  const WEEK: int := 604_800_000_000
  const MONTH: int := 2_592_000_000_000

  /** How many stored digests one roll looks at. */
  const READ_CAP: nat := 10_000

  type Level = l: int | 1 <= l <= 4 witness 1

  const MONTHLY: Level := 4

  function Length(level: Level): (d: int)
    ensures d > 0
  {
    if level == 1 then HOUR else if level == 2 then DAY else if level == 3 then WEEK else MONTH
  }

  /** The start of the window holding `t` on the grid through `anchor`. */
  function Slot(level: Level, anchor: int, t: int): int {
    t - (t - anchor) % Length(level)
  }

  /**
   Where a level's walk starts, given the oldest indexed time. Hours, days and weeks have one grid for ever; the 30-day
   grid starts at the first of the oldest entry's month and moves with it.
   */
  function Anchor(level: Level, oldest: int): int {
    if level == MONTHLY then MonthStart(oldest) else Slot(level, 0, oldest)
  }

  ghost predicate Aligned(level: Level, anchor: int, start: int) {
    (start - anchor) % Length(level) == 0
  }

  lemma SlotHolds(level: Level, anchor: int, t: int)
    ensures Aligned(level, anchor, Slot(level, anchor, t))
    ensures Slot(level, anchor, t) <= t < Slot(level, anchor, t) + Length(level)
  {
    FloorIsMultiple(t - anchor, Length(level));
    assert Slot(level, anchor, t) - anchor == (t - anchor) - (t - anchor) % Length(level);
  }

  lemma AlignedNext(level: Level, anchor: int, start: int)
    requires Aligned(level, anchor, start)
    ensures Aligned(level, anchor, start + Length(level))
  {
    MultiplesAdd(start - anchor, Length(level), Length(level));
    assert start + Length(level) - anchor == (start - anchor) + Length(level);
  }

  /** Two grid points are equal or at least one window apart. */
  lemma AlignedGap(level: Level, anchor: int, a: int, b: int)
    requires Aligned(level, anchor, a) && Aligned(level, anchor, b) && a < b
    ensures a + Length(level) <= b
  {
    MultiplesApart(a - anchor, b - anchor, Length(level));
  }

  /** The grid window around a time is unique. */
  lemma SlotOf(level: Level, anchor: int, start: int, t: int)
    requires Aligned(level, anchor, start) && start <= t < start + Length(level)
    ensures start == Slot(level, anchor, t)
  {
    SlotHolds(level, anchor, t);
    var s := Slot(level, anchor, t);
    if s < start { AlignedGap(level, anchor, s, start); } else if start < s { AlignedGap(level, anchor, start, s); }
  }

  lemma AnchorBefore(level: Level, oldest: int)
    ensures Anchor(level, oldest) <= oldest
  {
    if level != MONTHLY { SlotHolds(level, 0, oldest); }
  }

  /** Moving the anchor along the grid leaves the grid where it was. */
  lemma SameGrid(level: Level, anchor: int, other: int, start: int)
    requires Aligned(level, anchor, other)
    ensures Aligned(level, other, start) <==> Aligned(level, anchor, start)
  {
    var d := Length(level);
    if Aligned(level, other, start) {
      MultiplesAdd(start - other, other - anchor, d);
      assert start - anchor == (start - other) + (other - anchor);
    }
    if Aligned(level, anchor, start) {
      MultiplesSubtract(start - anchor, other - anchor, d);
      assert start - other == (start - anchor) - (other - anchor);
    }
  }

  /** Below the monthly level the walk's start does not matter: there is one grid. */
  lemma FixedGrid(level: Level, oldest: int, start: int)
    requires level != MONTHLY
    ensures Aligned(level, Anchor(level, oldest), start) <==> Aligned(level, 0, start)
  {
    SlotHolds(level, 0, oldest);
    SameGrid(level, 0, Anchor(level, oldest), start);
  }

  lemma FixedSlot(level: Level, oldest: int, t: int)
    requires level != MONTHLY
    ensures Slot(level, Anchor(level, oldest), t) == Slot(level, 0, t)
  {
    var s := Slot(level, Anchor(level, oldest), t);
    SlotHolds(level, Anchor(level, oldest), t);
    FixedGrid(level, oldest, s);
    SlotOf(level, 0, s, t);
  }

  /** A 30-day grid through a midnight runs through midnights. */
  lemma MonthlyMidnight(anchor: int, start: int)
    requires anchor % DAY == 0 && Aligned(MONTHLY, anchor, start)
    ensures start % DAY == 0
  {
    var x := start - anchor;
    MultipleIs(x, MONTH);
    assert x == DAY * (30 * (x / MONTH));
    Times(30 * (x / MONTH), DAY);
    MultiplesAdd(x, anchor, DAY);
  }

  // ----- multiples -----

  lemma MultipleIs(x: int, d: int)
    requires d > 0 && x % d == 0
    ensures x == d * (x / d)
  {
  }

  lemma Times(k: int, d: int)
    requires d > 0
    ensures (d * k) % d == 0
  {
    var x := d * k;
    var q, r := x / d, x % d;
    assert x == d * q + r && 0 <= r < d;
    assert d * (k - q) == r;
    assert k - q >= 1 ==> d * (k - q) >= d;
    assert k - q <= -1 ==> d * (k - q) <= -d;
  }

  lemma FloorIsMultiple(x: int, d: int)
    requires d > 0
    ensures (x - x % d) % d == 0 && 0 <= x % d < d
  {
    assert x - x % d == d * (x / d);
    Times(x / d, d);
  }

  lemma MultiplesAdd(x: int, y: int, d: int)
    requires d > 0 && x % d == 0 && (y % d == 0 || y == d)
    ensures (x + y) % d == 0
  {
    MultipleIs(x, d);
    if y == d {
      assert x + y == d * (x / d + 1);
      Times(x / d + 1, d);
    } else {
      MultipleIs(y, d);
      assert x + y == d * (x / d + y / d);
      Times(x / d + y / d, d);
    }
  }

  lemma MultiplesSubtract(x: int, y: int, d: int)
    requires d > 0 && x % d == 0 && y % d == 0
    ensures (x - y) % d == 0
  {
    MultipleIs(x, d);
    MultipleIs(y, d);
    assert x - y == d * (x / d - y / d);
    Times(x / d - y / d, d);
  }

  lemma MultiplesApart(x: int, y: int, d: int)
    requires d > 0 && x % d == 0 && y % d == 0 && x < y
    ensures x + d <= y
  {
    MultipleIs(x, d);
    MultipleIs(y, d);
    var n := y / d - x / d;
    assert y - x == d * n;
    assert n <= 0 ==> d * n <= 0;
    assert n >= 1 ==> d * n >= d;
  }

  /** `sources` stands for the source hash: the entry hashes it is computed from, in order. */
  datatype Digest = Digest(level: Level, start: int, end: int, sources: seq<string>)

  datatype Window = Window(level: Level, start: int, end: int)

  function IdOf(w: Window): (Level, int) { (w.level, w.start) }

  function DigestId(d: Digest): (Level, int) { (d.level, d.start) }

  function Ids(store: seq<Digest>): set<(Level, int)> {
    set d | d in store :: DigestId(d)
  }

  predicate Inside(e: CollectiveEntry, start: int, end: int) {
    start <= e.contributedAt < end
  }

  predicate HasEntries(index: seq<CollectiveEntry>, start: int, end: int) {
    exists e :: e in index && Inside(e, start, end)
  }

  // ----- pending windows -----

  predicate Wanted(index: seq<CollectiveEntry>, existing: set<(Level, int)>, w: Window) {
    IdOf(w) !in existing && HasEntries(index, w.start, w.end)
  }

  /** The pending windows of one level from `start` on: closed, not yet digested, holding an entry. */
  function PendingFrom(
    index: seq<CollectiveEntry>, existing: set<(Level, int)>, now: int, level: Level, start: int): seq<Window>
    decreases now - start
  {
    var end := start + Length(level);
    if end > now then []
    else
      var w := Window(level, start, end);
      var rest := PendingFrom(index, existing, now, level, end);
      if Wanted(index, existing, w) then [w] + rest else rest
  }

  function PendingLevel(index: seq<CollectiveEntry>, existing: set<(Level, int)>, now: int, level: Level): seq<Window>
    requires index != []
  {
    PendingFrom(index, existing, now, level, Anchor(level, index[0].contributedAt))
  }

  function Pending(index: seq<CollectiveEntry>, existing: set<(Level, int)>, now: int): seq<Window> {
    if index == [] then []
    else
      PendingLevel(index, existing, now, 1) + PendingLevel(index, existing, now, 2) +
      PendingLevel(index, existing, now, 3) + PendingLevel(index, existing, now, 4)
  }

  /** The windows of one level, by a walk from the oldest entry's window to now. */
  method PendingOfLevel(
    index: seq<CollectiveEntry>, existing: set<(Level, int)>, now: int, level: Level) returns (r: seq<Window>)
    requires index != []
    ensures r == PendingLevel(index, existing, now, level)
  {
    var start := Anchor(level, index[0].contributedAt);
    r := [];
    while start + Length(level) <= now
      invariant r + PendingFrom(index, existing, now, level, start) == PendingLevel(index, existing, now, level)
      decreases now - start
    {
      var w := Window(level, start, start + Length(level));
      if Wanted(index, existing, w) {
        SnocConcat(r, w, PendingFrom(index, existing, now, level, w.end));
        r := r + [w];
      }
      start := start + Length(level);
    }
  }

  method PendingWindows(index: seq<CollectiveEntry>, existing: set<(Level, int)>, now: int) returns (r: seq<Window>)
    ensures r == Pending(index, existing, now)
  {
    if index == [] {
      return [];
    }
    var hourly := PendingOfLevel(index, existing, now, 1);
    var daily := PendingOfLevel(index, existing, now, 2);
    var weekly := PendingOfLevel(index, existing, now, 3);
    var monthly := PendingOfLevel(index, existing, now, 4);
    r := hourly + daily + weekly + monthly;
  }

  // ----- rolling -----

  /** Hashes of the entries in the window; the end is inclusive, unlike in the pending test. */
  function Sources(index: seq<CollectiveEntry>, start: int, end: int): seq<string> {
    if index == [] then []
    else if start <= index[0].contributedAt <= end then [index[0].hash] + Sources(index[1..], start, end)
    else Sources(index[1..], start, end)
  }

  function DigestOf(index: seq<CollectiveEntry>, w: Window): Digest {
    Digest(w.level, w.start, w.end, Sources(index, w.start, w.end))
  }

  function DigestAll(index: seq<CollectiveEntry>, ws: seq<Window>): (r: seq<Digest>)
    ensures |r| == |ws|
    ensures forall i {:trigger r[i]} :: 0 <= i < |ws| ==> r[i] == DigestOf(index, ws[i])
  {
    seq(|ws|, i requires 0 <= i < |ws| => DigestOf(index, ws[i]))
  }

  function OnlyLevels(ws: seq<Window>, levels: set<int>): seq<Window> {
    if ws == [] then []
    else if ws[0].level in levels then [ws[0]] + OnlyLevels(ws[1..], levels)
    else OnlyLevels(ws[1..], levels)
  }

  /** What a roll would create: pending windows of the wanted levels (an empty choice means all). */
  function Due(index: seq<CollectiveEntry>, store: seq<Digest>, now: int, levels: set<int>): seq<Window> {
    var pending := Pending(index, Ids(Newest(store, READ_CAP)), now);
    if levels == {} then pending else OnlyLevels(pending, levels)
  }

  function Roll(index: seq<CollectiveEntry>, store: seq<Digest>, now: int, levels: set<int>): seq<Digest> {
    store + DigestAll(index, Due(index, store, now, levels))
  }

  lemma DigestAllSnoc(index: seq<CollectiveEntry>, ws: seq<Window>, i: nat)
    requires i < |ws|
    ensures DigestAll(index, ws[..i + 1]) == DigestAll(index, ws[..i]) + [DigestOf(index, ws[i])]
  {
    assert ws[..i + 1] == ws[..i] + [ws[i]];
  }

  /** The digester's shard. */
  class Digester {
    var store: seq<Digest>

    constructor ()
      ensures store == []
    {
      store := [];
    }

    method RollNow(index: seq<CollectiveEntry>, now: int, levels: set<int>) returns (created: seq<Digest>)
      modifies this
      ensures store == Roll(index, old(store), now, levels) && store == old(store) + created
    {
      var pending := PendingWindows(index, Ids(Newest(store, READ_CAP)), now);
      if levels != {} {
        pending := OnlyLevels(pending, levels);
      }
      ghost var before := store;
      created := [];
      for i := 0 to |pending|
        invariant created == DigestAll(index, pending[..i])
        invariant store == before + created
      {
        var d := DigestOf(index, pending[i]);
        DigestAllSnoc(index, pending, i);
        store := store + [d];
        created := created + [d];
      }
      assert pending[..|pending|] == pending;
    }
  }

  // ----- what pending contains -----

  lemma {:induction false} PendingFromSound(
    index: seq<CollectiveEntry>, existing: set<(Level, int)>, now: int, level: Level, anchor: int, start: int)
    requires Aligned(level, anchor, start)
    ensures forall w :: w in PendingFrom(index, existing, now, level, start) ==>
              w.level == level && start <= w.start && Aligned(level, anchor, w.start) &&
              w.end == w.start + Length(level) <= now && Wanted(index, existing, w)
    ensures forall i, j :: 0 <= i < j < |PendingFrom(index, existing, now, level, start)| ==>
              PendingFrom(index, existing, now, level, start)[i].start <
              PendingFrom(index, existing, now, level, start)[j].start
    decreases now - start
  {
    var end := start + Length(level);
    if end <= now {
      AlignedNext(level, anchor, start);
      PendingFromSound(index, existing, now, level, anchor, end);
    }
  }

  lemma {:induction false} PendingFromComplete(
    index: seq<CollectiveEntry>, existing: set<(Level, int)>, now: int, level: Level, anchor: int, start: int,
    w: Window)
    requires Aligned(level, anchor, start) && Aligned(level, anchor, w.start) && start <= w.start
    requires w.level == level && w.end == w.start + Length(level) <= now && Wanted(index, existing, w)
    ensures w in PendingFrom(index, existing, now, level, start)
    decreases now - start
  {
    if start < w.start {
      AlignedGap(level, anchor, start, w.start);
      AlignedNext(level, anchor, start);
      PendingFromComplete(index, existing, now, level, anchor, start + Length(level), w);
    }
  }

  ghost predicate Distinct(ws: seq<Window>) {
    forall i, j :: 0 <= i < j < |ws| ==> IdOf(ws[i]) != IdOf(ws[j])
  }

  /** A window on the level's present grid that is closed, undigested and not empty. */
  ghost predicate Proper(index: seq<CollectiveEntry>, existing: set<(Level, int)>, now: int, w: Window) {
    && index != [] && Aligned(w.level, Anchor(w.level, index[0].contributedAt), w.start)
    && w.end == w.start + Length(w.level) <= now && Wanted(index, existing, w)
  }

  lemma LevelSound(index: seq<CollectiveEntry>, existing: set<(Level, int)>, now: int, level: Level)
    requires index != []
    ensures forall w :: w in PendingLevel(index, existing, now, level) ==>
            w.level == level && Proper(index, existing, now, w)
    ensures Distinct(PendingLevel(index, existing, now, level))
  {
    var anchor := Anchor(level, index[0].contributedAt);
    PendingFromSound(index, existing, now, level, anchor, anchor);
  }

  lemma DistinctConcat(a: seq<Window>, b: seq<Window>)
    requires Distinct(a) && Distinct(b)
    requires forall v, w :: v in a && w in b ==> v.level < w.level
    ensures Distinct(a + b)
  {
    var ab := a + b;
    forall i, j | 0 <= i < j < |ab| ensures IdOf(ab[i]) != IdOf(ab[j]) {
      if i < |a| && j >= |a| { assert ab[i] in a && ab[j] in b; }
    }
  }

  lemma PendingDistinct(index: seq<CollectiveEntry>, existing: set<(Level, int)>, now: int)
    ensures Distinct(Pending(index, existing, now))
  {
    if index != [] {
      var l1, l2, l3, l4 := PendingLevel(index, existing, now, 1), PendingLevel(index, existing, now, 2),
                            PendingLevel(index, existing, now, 3), PendingLevel(index, existing, now, 4);
      LevelSound(index, existing, now, 1);
      LevelSound(index, existing, now, 2);
      LevelSound(index, existing, now, 3);
      LevelSound(index, existing, now, 4);
      DistinctConcat(l1, l2);
      DistinctConcat(l1 + l2, l3);
      DistinctConcat(l1 + l2 + l3, l4);
    }
  }

  /** A window with an indexed entry does not lie before the walk. */
  lemma WalkReaches(index: seq<CollectiveEntry>, existing: set<(Level, int)>, now: int, w: Window)
    requires Chronological(index) && Proper(index, existing, now, w)
    ensures Anchor(w.level, index[0].contributedAt) <= w.start
  {
    var e :| e in index && Inside(e, w.start, w.end);
    var anchor := Anchor(w.level, index[0].contributedAt);
    AnchorBefore(w.level, index[0].contributedAt);
    assert index[0].contributedAt <= e.contributedAt;
    if w.start < anchor { AlignedGap(w.level, anchor, w.start, anchor); }
  }

  lemma LevelComplete(index: seq<CollectiveEntry>, existing: set<(Level, int)>, now: int, w: Window)
    requires Chronological(index) && Proper(index, existing, now, w)
    ensures w in PendingLevel(index, existing, now, w.level)
  {
    var anchor := Anchor(w.level, index[0].contributedAt);
    WalkReaches(index, existing, now, w);
    PendingFromComplete(index, existing, now, w.level, anchor, anchor, w);
  }

  /** The walks of all four levels find exactly the windows on their grids that are closed, undigested and not empty. */
  lemma PendingIffProper(index: seq<CollectiveEntry>, existing: set<(Level, int)>, now: int, w: Window)
    requires Chronological(index)
    ensures w in Pending(index, existing, now) <==> Proper(index, existing, now, w)
  {
    if index != [] {
      LevelSound(index, existing, now, 1);
      LevelSound(index, existing, now, 2);
      LevelSound(index, existing, now, 3);
      LevelSound(index, existing, now, 4);
      if Proper(index, existing, now, w) { LevelComplete(index, existing, now, w); }
    }
  }

  /** The closed window around any indexed entry is pending unless it is already digested. */
  lemma PendingComplete(
    index: seq<CollectiveEntry>, existing: set<(Level, int)>, now: int, level: Level, e: CollectiveEntry)
    requires Chronological(index) && e in index
    requires Slot(level, Anchor(level, index[0].contributedAt), e.contributedAt) + Length(level) <= now
    ensures var s := Slot(level, Anchor(level, index[0].contributedAt), e.contributedAt);
      (level, s) in existing || Window(level, s, s + Length(level)) in Pending(index, existing, now)
  {
    var anchor := Anchor(level, index[0].contributedAt);
    var s := Slot(level, anchor, e.contributedAt);
    var w := Window(level, s, s + Length(level));
    SlotHolds(level, anchor, e.contributedAt);
    if (level, s) !in existing {
      assert Inside(e, w.start, w.end);
      PendingIffProper(index, existing, now, w);
    }
  }
}
