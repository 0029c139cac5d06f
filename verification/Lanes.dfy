/** One lane per agent, read back as a single newest-first view (src/dsm/lanes.py). */
module Lanes {
  import opened Common
  import opened Collective
  import opened CollectiveShard

  // ----- stable descending order -----

  /** Merge two newest-first lists; on equal times the first list goes first. */
  function Merge(xs: seq<CollectiveEntry>, ys: seq<CollectiveEntry>): (r: seq<CollectiveEntry>)
    ensures |r| == |xs| + |ys|
    decreases |xs| + |ys|
  {
    if xs == [] then ys
    else if ys == [] then xs
    else if xs[0].contributedAt >= ys[0].contributedAt then [xs[0]] + Merge(xs[1..], ys)
    else [ys[0]] + Merge(xs, ys[1..])
  }

  /** Stable sort by time, newest first. */
  function SortDesc(xs: seq<CollectiveEntry>): (r: seq<CollectiveEntry>)
    ensures |r| == |xs|
  {
    if xs == [] then [] else Merge([xs[0]], SortDesc(xs[1..]))
  }

  ghost predicate Descending(xs: seq<CollectiveEntry>) {
    forall i, j :: 0 <= i < j < |xs| ==> xs[i].contributedAt >= xs[j].contributedAt
  }

  lemma {:induction false} MergeAssoc(a: seq<CollectiveEntry>, b: seq<CollectiveEntry>, c: seq<CollectiveEntry>)
    ensures Merge(Merge(a, b), c) == Merge(a, Merge(b, c))
    decreases |a| + |b| + |c|
  {
    if a != [] && b != [] && c != [] {
      if a[0].contributedAt >= b[0].contributedAt {
        if a[0].contributedAt >= c[0].contributedAt {
          MergeAssoc(a[1..], b, c);
          assert Merge(a, b)[1..] == Merge(a[1..], b);
        } else {
          MergeAssoc(a, b, c[1..]);
          assert Merge(b, c)[1..] == Merge(b, c[1..]);
        }
      } else if b[0].contributedAt >= c[0].contributedAt {
        MergeAssoc(a, b[1..], c);
        assert Merge(a, b)[1..] == Merge(a, b[1..]);
        assert Merge(b, c)[1..] == Merge(b[1..], c);
      } else {
        MergeAssoc(a, b, c[1..]);
        assert Merge(b, c)[1..] == Merge(b, c[1..]);
      }
    }
  }

  lemma {:induction false} SortConcat(a: seq<CollectiveEntry>, b: seq<CollectiveEntry>)
    ensures SortDesc(a + b) == Merge(SortDesc(a), SortDesc(b))
    decreases |a|
  {
    if a == [] {
      assert a + b == b;
    } else {
      SortConcat(a[1..], b);
      assert (a + b)[1..] == a[1..] + b;
      MergeAssoc([a[0]], SortDesc(a[1..]), SortDesc(b));
    }
  }

  lemma {:induction false} SortOfSorted(xs: seq<CollectiveEntry>)
    requires Descending(xs)
    ensures SortDesc(xs) == xs
  {
    if xs != [] {
      SortOfSorted(xs[1..]);
      if |xs| > 1 {
        assert [xs[0]][1..] == [] && Merge([], xs[1..]) == xs[1..];
      }
    }
  }

  lemma ConsElements(x: CollectiveEntry, xs: seq<CollectiveEntry>)
    ensures multiset([x] + xs) == multiset{x} + multiset(xs)
  {
  }

  lemma {:induction false} MergeElements(xs: seq<CollectiveEntry>, ys: seq<CollectiveEntry>)
    ensures multiset(Merge(xs, ys)) == multiset(xs) + multiset(ys)
    decreases |xs| + |ys|
  {
    if xs != [] && ys != [] {
      if xs[0].contributedAt >= ys[0].contributedAt {
        MergeElements(xs[1..], ys);
        ConsElements(xs[0], Merge(xs[1..], ys));
        ConsElements(xs[0], xs[1..]);
        assert xs == [xs[0]] + xs[1..];
      } else {
        MergeElements(xs, ys[1..]);
        ConsElements(ys[0], Merge(xs, ys[1..]));
        ConsElements(ys[0], ys[1..]);
        assert ys == [ys[0]] + ys[1..];
      }
    }
  }

  lemma {:induction false} SortElements(xs: seq<CollectiveEntry>)
    ensures multiset(SortDesc(xs)) == multiset(xs)
  {
    if xs != [] {
      SortElements(xs[1..]);
      MergeElements([xs[0]], SortDesc(xs[1..]));
      assert xs == [xs[0]] + xs[1..];
    }
  }

  /** No element of `xs` is newer than `t`. */
  ghost predicate NotNewer(xs: seq<CollectiveEntry>, t: int) {
    forall i :: 0 <= i < |xs| ==> xs[i].contributedAt <= t
  }

  lemma {:induction false} MergeNotNewer(xs: seq<CollectiveEntry>, ys: seq<CollectiveEntry>, t: int)
    requires NotNewer(xs, t) && NotNewer(ys, t)
    ensures NotNewer(Merge(xs, ys), t)
    decreases |xs| + |ys|
  {
    if xs != [] && ys != [] {
      if xs[0].contributedAt >= ys[0].contributedAt {
        MergeNotNewer(xs[1..], ys, t);
      } else {
        MergeNotNewer(xs, ys[1..], t);
      }
    }
  }

  lemma DescendingCons(x: CollectiveEntry, xs: seq<CollectiveEntry>)
    requires Descending(xs) && NotNewer(xs, x.contributedAt)
    ensures Descending([x] + xs)
  {
  }

  lemma {:induction false} MergeSorted(xs: seq<CollectiveEntry>, ys: seq<CollectiveEntry>)
    requires Descending(xs) && Descending(ys)
    ensures Descending(Merge(xs, ys))
    decreases |xs| + |ys|
  {
    if xs != [] && ys != [] {
      if xs[0].contributedAt >= ys[0].contributedAt {
        MergeSorted(xs[1..], ys);
        MergeNotNewer(xs[1..], ys, xs[0].contributedAt);
        DescendingCons(xs[0], Merge(xs[1..], ys));
      } else {
        MergeSorted(xs, ys[1..]);
        MergeNotNewer(xs, ys[1..], ys[0].contributedAt);
        DescendingCons(ys[0], Merge(xs, ys[1..]));
      }
    }
  }

  lemma {:induction false} SortSorted(xs: seq<CollectiveEntry>)
    ensures Descending(SortDesc(xs))
  {
    if xs != [] {
      SortSorted(xs[1..]);
      MergeSorted([xs[0]], SortDesc(xs[1..]));
    }
  }

  // ----- cutting before and after a merge -----

  lemma {:induction false} TakeMergeFirst(xs: seq<CollectiveEntry>, ys: seq<CollectiveEntry>, a: nat, k: nat)
    requires k <= a
    ensures Take(Merge(Take(xs, a), ys), k) == Take(Merge(xs, ys), k)
    decreases |xs| + |ys|
  {
    if k > 0 && xs != [] && ys != [] {
      if xs[0].contributedAt >= ys[0].contributedAt {
        TakeMergeLeft(xs, ys, k);
        TakeMergeLeft(Take(xs, a), ys, k);
        TakeTail(xs, a);
        TakeMergeFirst(xs[1..], ys, a - 1, k - 1);
      } else {
        TakeMergeRight(xs, ys, k);
        TakeMergeRight(Take(xs, a), ys, k);
        TakeMergeFirst(xs, ys[1..], a, k - 1);
      }
    } else if ys == [] {
      TakeTake(xs, a, k);
    }
  }

  lemma {:induction false} TakeMergeSecond(xs: seq<CollectiveEntry>, ys: seq<CollectiveEntry>, b: nat, k: nat)
    requires k <= b
    ensures Take(Merge(xs, Take(ys, b)), k) == Take(Merge(xs, ys), k)
    decreases |xs| + |ys|
  {
    if k > 0 && xs != [] && ys != [] {
      if xs[0].contributedAt >= ys[0].contributedAt {
        TakeMergeLeft(xs, ys, k);
        TakeMergeLeft(xs, Take(ys, b), k);
        TakeMergeSecond(xs[1..], ys, b, k - 1);
      } else {
        TakeMergeRight(xs, ys, k);
        TakeMergeRight(xs, Take(ys, b), k);
        TakeTail(ys, b);
        TakeMergeSecond(xs, ys[1..], b - 1, k - 1);
      }
    } else if xs == [] {
      TakeTake(ys, b, k);
    }
  }

  /** Cutting both lists to `k` before merging does not change the first `k` of the merge. */
  lemma TakeMerge(xs: seq<CollectiveEntry>, ys: seq<CollectiveEntry>, k: nat)
    ensures Take(Merge(Take(xs, k), Take(ys, k)), k) == Take(Merge(xs, ys), k)
  {
    TakeMergeFirst(xs, Take(ys, k), k, k);
    TakeMergeSecond(xs, ys, k, k);
  }

  lemma TakeTail(xs: seq<CollectiveEntry>, a: nat)
    requires xs != [] && a > 0
    ensures Take(xs, a)[1..] == Take(xs[1..], a - 1)
  {
  }

  lemma TakeMergeLeft(xs: seq<CollectiveEntry>, ys: seq<CollectiveEntry>, k: nat)
    requires k > 0 && xs != [] && ys != [] && xs[0].contributedAt >= ys[0].contributedAt
    ensures Take(Merge(xs, ys), k) == [xs[0]] + Take(Merge(xs[1..], ys), k - 1)
  {
    TakeCons(xs[0], Merge(xs[1..], ys), k);
  }

  lemma TakeMergeRight(xs: seq<CollectiveEntry>, ys: seq<CollectiveEntry>, k: nat)
    requires k > 0 && xs != [] && ys != [] && xs[0].contributedAt < ys[0].contributedAt
    ensures Take(Merge(xs, ys), k) == [ys[0]] + Take(Merge(xs, ys[1..]), k - 1)
  {
    TakeCons(ys[0], Merge(xs, ys[1..]), k);
  }

  lemma TakeCons(x: CollectiveEntry, xs: seq<CollectiveEntry>, k: nat)
    requires k > 0
    ensures Take([x] + xs, k) == [x] + Take(xs, k - 1)
  {
  }

  lemma TakeTake(xs: seq<CollectiveEntry>, a: nat, k: nat)
    requires k <= a
    ensures Take(Take(xs, a), k) == Take(xs, k)
  {
  }

  // ----- lanes -----

  /** A lane's window, newest first, of one entry type (or all). */
  function NewestFirst(window: seq<CollectiveEntry>, entryType: string): seq<CollectiveEntry> {
    Filtered(Reversed(window), "", entryType)
  }

  function AllNewestFirst(windows: seq<seq<CollectiveEntry>>, entryType: string): seq<CollectiveEntry> {
    if windows == [] then [] else NewestFirst(windows[0], entryType) + AllNewestFirst(windows[1..], entryType)
  }

  /** What the source gathers: each lane already cut to `limit`. */
  function Gathered(windows: seq<seq<CollectiveEntry>>, limit: nat, entryType: string): seq<CollectiveEntry> {
    if windows == [] then [] else Recent(windows[0], limit, "", entryType) + Gathered(windows[1..], limit, entryType)
  }

  function LaneRecent(windows: seq<seq<CollectiveEntry>>, limit: nat, entryType: string): seq<CollectiveEntry> {
    Take(SortDesc(Gathered(windows, limit, entryType)), limit)
  }

  lemma {:induction false} FilteredDescending(xs: seq<CollectiveEntry>, agent: string, entryType: string, t: int)
    requires Descending(xs) && NotNewer(xs, t)
    ensures Descending(Filtered(xs, agent, entryType)) && NotNewer(Filtered(xs, agent, entryType), t)
    decreases |xs|
  {
    if xs != [] {
      FilteredDescending(xs[1..], agent, entryType, xs[0].contributedAt);
      DescendingCons(xs[0], Filtered(xs[1..], agent, entryType));
    }
  }

  lemma NewestFirstDescending(window: seq<CollectiveEntry>, entryType: string)
    requires Chronological(window)
    ensures Descending(NewestFirst(window, entryType))
  {
    var r := Reversed(window);
    if r != [] { FilteredDescending(r, "", entryType, r[0].contributedAt); }
  }

  lemma TakeDescending(xs: seq<CollectiveEntry>, k: nat)
    requires Descending(xs)
    ensures Descending(Take(xs, k))
  {
  }

  /**
   Cutting every lane to its newest `limit`, sorting and cutting again gives the very list that sorting everything and
   cutting once gives, ties included.
   */
  lemma {:induction false} CutSortCut(windows: seq<seq<CollectiveEntry>>, limit: nat, entryType: string)
    requires forall w :: w in windows ==> Chronological(w)
    ensures LaneRecent(windows, limit, entryType) == Take(SortDesc(AllNewestFirst(windows, entryType)), limit)
    decreases |windows|
  {
    if windows != [] {
      var lane, rest := NewestFirst(windows[0], entryType), windows[1..];
      NewestFirstDescending(windows[0], entryType);
      TakeDescending(lane, limit);
      SortOfSorted(lane);
      SortOfSorted(Take(lane, limit));
      CutSortCut(rest, limit, entryType);
      var cut, full := SortDesc(Gathered(rest, limit, entryType)), SortDesc(AllNewestFirst(rest, entryType));
      SortConcat(Take(lane, limit), Gathered(rest, limit, entryType));
      SortConcat(lane, AllNewestFirst(rest, entryType));
      TakeMerge(Take(lane, limit), cut, limit);
      TakeTake(lane, limit, limit);
      TakeMerge(lane, full, limit);
    }
  }

  /**
   Cross-lane top-k: newest first, of length min(limit, total), drawn from the union of the lane windows, and nothing
   left out is newer than anything included.
   */
  lemma LaneRecentIsTopK(windows: seq<seq<CollectiveEntry>>, limit: nat, entryType: string)
    requires forall w :: w in windows ==> Chronological(w)
    ensures var r := LaneRecent(windows, limit, entryType); var all := AllNewestFirst(windows, entryType);
      && Descending(r)
      && |r| == (if |all| <= limit then |all| else limit)
      && multiset(r) <= multiset(all)
      && forall kept, gone :: kept in r && gone in multiset(all) - multiset(r) ==>
          kept.contributedAt >= gone.contributedAt
  {
    var all := AllNewestFirst(windows, entryType);
    CutSortCut(windows, limit, entryType);
    SortSorted(all);
    SortElements(all);
    CutIsTop(SortDesc(all), limit);
  }

  /** The head of a descending list is a top-k of it. */
  lemma CutIsTop(sorted: seq<CollectiveEntry>, limit: nat)
    requires Descending(sorted)
    ensures var r := Take(sorted, limit);
      && Descending(r) && multiset(r) <= multiset(sorted)
      && forall kept, gone :: kept in r && gone in multiset(sorted) - multiset(r) ==>
          kept.contributedAt >= gone.contributedAt
  {
    var r := Take(sorted, limit);
    var rest := sorted[|r|..];
    assert sorted == r + rest;
    forall kept, gone | kept in r && gone in multiset(sorted) - multiset(r)
      ensures kept.contributedAt >= gone.contributedAt
    {
      assert gone in multiset(rest);
      HeadNotOlder(r, rest, kept, gone);
    }
  }

  lemma HeadNotOlder(r: seq<CollectiveEntry>, rest: seq<CollectiveEntry>, kept: CollectiveEntry, gone: CollectiveEntry)
    requires Descending(r + rest) && kept in r && gone in rest
    ensures kept.contributedAt >= gone.contributedAt
  {
    var i :| 0 <= i < |r| && r[i] == kept;
    var j :| 0 <= j < |rest| && rest[j] == gone;
    assert (r + rest)[i] == kept && (r + rest)[|r| + j] == gone;
  }

  // ----- the group -----

  datatype Lane = Lane(agent: string, shard: Shard)

  /** The windows behind a list of lanes, in registration order. */
  ghost function Windows(lanes: seq<Lane>): (r: seq<seq<CollectiveEntry>>)
    ensures |r| == |lanes|
    reads set l | l in lanes :: l.shard, set l | l in lanes :: l.shard.storage
  {
    if lanes == [] then []
    else [Rebuild(lanes[0].shard.storage.log, lanes[0].shard.window)] + Windows(lanes[1..])
  }

  ghost predicate AllValid(lanes: seq<Lane>)
    reads set l | l in lanes :: l.shard, set l | l in lanes :: l.shard.storage
  {
    forall l :: l in lanes ==> l.shard.Valid()
  }

  twostate lemma {:induction false} WindowsUnchanged(lanes: seq<Lane>)
    requires forall l :: l in lanes ==> l.shard.storage.log == old(l.shard.storage.log)
    ensures Windows(lanes) == old(Windows(lanes))
    decreases |lanes|
  {
    if lanes != [] {
      WindowsUnchanged(lanes[1..]);
    }
  }

  lemma {:induction false} WindowAt(lanes: seq<Lane>, i: nat)
    requires i < |lanes|
    ensures Windows(lanes)[i] == Rebuild(lanes[i].shard.storage.log, lanes[i].shard.window)
    decreases |lanes|
  {
    if i > 0 {
      WindowAt(lanes[1..], i - 1);
    }
  }

  /** One lane's part; reading it may rebuild its index but changes no window. */
  method ReadLane(lanes: seq<Lane>, i: nat, limit: nat, entryType: string) returns (part: seq<CollectiveEntry>)
    requires i < |lanes| && AllValid(lanes)
    modifies lanes[i].shard
    ensures AllValid(lanes) && Windows(lanes) == old(Windows(lanes))
    ensures part == Recent(Windows(lanes)[i], limit, "", entryType)
  {
    assert lanes[i] in lanes;
    part := lanes[i].shard.RecentEntries(limit, "", entryType);
    WindowsUnchanged(lanes);
    WindowAt(lanes, i);
  }

  lemma GatherStep(windows: seq<seq<CollectiveEntry>>, i: nat, limit: nat, entryType: string, all: seq<CollectiveEntry>)
    requires i < |windows|
    requires all + Gathered(windows[i..], limit, entryType) == Gathered(windows, limit, entryType)
    ensures all + Recent(windows[i], limit, "", entryType) + Gathered(windows[i + 1..], limit, entryType) ==
            Gathered(windows, limit, entryType)
  {
    assert windows[i..][1..] == windows[i + 1..];
  }

  /** Collect every lane's newest entries, in registration order. */
  method GatherLanes(lanes: seq<Lane>, limit: nat, entryType: string) returns (all: seq<CollectiveEntry>)
    requires AllValid(lanes)
    modifies set l | l in lanes :: l.shard
    ensures AllValid(lanes) && Windows(lanes) == old(Windows(lanes))
    ensures all == Gathered(Windows(lanes), limit, entryType)
  {
    all := [];
    ghost var windows := Windows(lanes);
    for i := 0 to |lanes|
      invariant AllValid(lanes)
      invariant Windows(lanes) == windows
      invariant all + Gathered(windows[i..], limit, entryType) == Gathered(windows, limit, entryType)
    {
      GatherStep(windows, i, limit, entryType, all);
      assert lanes[i] in lanes;
      var part := ReadLane(lanes, i, limit, entryType);
      all := all + part;
    }
  }

  /** Collect, sort by time, cut. */
  method RecentAcross(lanes: seq<Lane>, limit: nat, entryType: string) returns (r: seq<CollectiveEntry>)
    requires AllValid(lanes)
    modifies set l | l in lanes :: l.shard
    ensures AllValid(lanes) && Windows(lanes) == old(Windows(lanes))
    ensures r == LaneRecent(Windows(lanes), limit, entryType)
  {
    var all := GatherLanes(lanes, limit, entryType);
    r := Take(SortDesc(all), limit);
  }

  class LaneGroup {
    var lanes: seq<Lane>

    constructor ()
      ensures lanes == []
    {
      lanes := [];
    }

    /** Registering an agent twice keeps its first lane. */
    method RegisterLane(agent: string, storage: Storage, window: nat)
      modifies this`lanes
      ensures (exists l :: l in old(lanes) && l.agent == agent) ==> lanes == old(lanes)
      ensures !(exists l :: l in old(lanes) && l.agent == agent) ==>
                |lanes| == |old(lanes)| + 1 && lanes[..|old(lanes)|] == old(lanes) &&
                var lane := lanes[|old(lanes)|];
                && lane.agent == agent && fresh(lane.shard) && lane.shard.Valid()
                && lane.shard.storage == storage && lane.shard.window == window
    {
      if exists l :: l in lanes && l.agent == agent {
        return;
      }
      var shard := new Shard(storage, window);
      lanes := lanes + [Lane(agent, shard)];
    }

    /** With an agent, that agent's lane alone (None when it is not registered); without one, the merged view. */
    method Recent(agent: string, limit: nat, entryType: string) returns (r: Option<seq<CollectiveEntry>>)
      requires AllValid(lanes)
      modifies set l | l in lanes :: l.shard
      ensures AllValid(lanes) && Windows(lanes) == old(Windows(lanes))
      ensures agent == "" ==> r == Some(LaneRecent(Windows(lanes), limit, entryType))
      ensures agent != "" ==> (r.None? <==> forall l :: l in lanes ==> l.agent != agent)
      ensures agent != "" && r.Some? ==>
                (exists i :: 0 <= i < |lanes| && lanes[i].agent == agent &&
                  r.value == Collective.Recent(Windows(lanes)[i], limit, "", entryType))
    {
      if agent == "" {
        var all := RecentAcross(lanes, limit, entryType);
        return Some(all);
      }
      for i := 0 to |lanes|
        invariant forall j :: 0 <= j < i ==> lanes[j].agent != agent
      {
        if lanes[i].agent == agent {
          assert lanes[i] in lanes;
          var part := ReadLane(lanes, i, limit, entryType);
          return Some(part);
        }
      }
      return None;
    }
  }
}
