/** Incremental sync over whole runs: pushes and cursor pulls in any interleaving (src/dsm/collective.py). */
module SyncRuns {
  import opened Collective

  /** One step of a run as a reader sees it: the log has grown (any pushes by anyone), or the reader pulls. */
  datatype Event = Grow(log: seq<LogEntry>) | Pull

  /** A reader: its cursor hash and everything its pulls have delivered so far. */
  datatype Reader = Reader(cursor: string, delivered: seq<CollectiveEntry>)

  /** `pull(since_hash)`: what is after the cursor in the index; the cursor moves to the last entry delivered. */
  function PullStep(window: nat, log: seq<LogEntry>, rd: Reader): Reader {
    var found := After(Rebuild(log, window), rd.cursor);
    if found == [] then rd else Reader(found[|found| - 1].hash, rd.delivered + found)
  }

  function Run(window: nat, log: seq<LogEntry>, rd: Reader, es: seq<Event>): Reader
    decreases |es|
  {
    if es == [] then rd
    else match es[0]
      case Grow(more) => Run(window, more, rd, es[1..])
      case Pull => Run(window, log, PullStep(window, log, rd), es[1..])
  }

  /** The log at the end of a run. */
  function FinalLog(log: seq<LogEntry>, es: seq<Event>): seq<LogEntry>
    decreases |es|
  {
    if es == [] then log
    else match es[0]
      case Grow(more) => FinalLog(more, es[1..])
      case Pull => FinalLog(log, es[1..])
  }

  /** The log only ever grows, and stays a chain. */
  ghost predicate Lawful(hash: Hasher, log: seq<LogEntry>, es: seq<Event>)
    decreases |es|
  {
    LogOk(hash, log) &&
    (es == [] || match es[0]
       case Grow(more) => log <= more && Lawful(hash, more, es[1..])
       case Pull => Lawful(hash, log, es[1..]))
  }

  /** Every push is a lawful growth, so every interleaving of pushes and pulls is a lawful run. */
  lemma PushIsGrowth(eng: Engine, log: seq<LogEntry>, agent: string, inputs: seq<Input>, es: seq<Event>)
    requires LogOk(eng.hash, log) && AgentChains(eng.window, log)
    requires Lawful(eng.hash, PushAll(eng, log, agent, inputs), es)
    ensures Lawful(eng.hash, log, [Grow(PushAll(eng, log, agent, inputs))] + es)
  {
    PushAllKeeps(eng, log, agent, inputs);
    var run := [Grow(PushAll(eng, log, agent, inputs))] + es;
    assert run[1..] == es;
  }

  // ----- one pull -----

  lemma {:induction false} AfterSkips(index: seq<CollectiveEntry>, cursor: string, k: nat)
    requires k < |index| && index[k].hash == cursor
    requires forall i :: 0 <= i < k ==> index[i].hash != cursor
    ensures After(index, cursor) == index[k + 1..]
    decreases k
  {
    if k > 0 {
      AfterSkips(index[1..], cursor, k - 1);
      assert index[1..][k..] == index[k + 1..];
    }
  }

  lemma {:induction false} AfterMisses(index: seq<CollectiveEntry>, cursor: string)
    requires forall i :: 0 <= i < |index| ==> index[i].hash != cursor
    ensures After(index, cursor) == []
  {
    if index != [] {
      AfterMisses(index[1..], cursor);
    }
  }

  /** A hash occurs in the index only at its own place. */
  lemma IndexHash(hash: Hasher, window: nat, log: seq<LogEntry>, c: nat, i: nat)
    requires Injective(hash) && LogOk(hash, log) && c < |log| && i < |Rebuild(log, window)|
    ensures Rebuild(log, window)[i].hash == log[c].hash <==> |log| - |Rebuild(log, window)| + i == c
  {
    var place := |log| - |Rebuild(log, window)| + i;
    assert Rebuild(log, window)[i] == View(log[place]);
    if place < c {
      HashesDistinct(hash, log, place, c);
    } else if c < place {
      HashesDistinct(hash, log, c, place);
    }
  }

  lemma RebuildTail(log: seq<LogEntry>, window: nat, c: nat)
    requires c < |log| && |log| - 1 - c < window
    ensures var index := Rebuild(log, window); var k := c - (|log| - |index|);
      0 <= k < |index| && index[k + 1..] == Views(log[c + 1..])
  {
  }

  /**
   A pull from the cursor at place `c` delivers exactly the rest of the log while the cursor is in the window, else
   nothing.
   */
  lemma PullDelivers(hash: Hasher, window: nat, log: seq<LogEntry>, c: nat)
    requires Injective(hash) && LogOk(hash, log) && c < |log|
    ensures After(Rebuild(log, window), log[c].hash) ==
            if |log| - 1 - c < window then Views(log[c + 1..]) else []
  {
    var index := Rebuild(log, window);
    forall i | 0 <= i < |index| ensures index[i].hash == log[c].hash <==> |log| - |index| + i == c {
      IndexHash(hash, window, log, c, i);
    }
    if |log| - 1 - c < window {
      RebuildTail(log, window, c);
      AfterSkips(index, log[c].hash, c - (|log| - |index|));
    } else {
      AfterMisses(index, log[c].hash);
    }
  }

  // ----- whole runs -----

  /** Fewer than `window` entries have arrived since the cursor (at place `c`) whenever the reader pulls. */
  predicate Timely(window: nat, n: nat, c: nat, es: seq<Event>)
    decreases |es|
  {
    if es == [] then true
    else match es[0]
      case Grow(more) => Timely(window, |more|, c, es[1..])
      case Pull => c < n <= c + window && Timely(window, n, n - 1, es[1..])
  }

  /** Where the reader stands after a run that starts at place `c` of a log of `n` entries. */
  function Reached(n: nat, c: nat, es: seq<Event>): int
    decreases |es|
  {
    if es == [] then c
    else match es[0]
      case Grow(more) => Reached(|more|, c, es[1..])
      case Pull => if n == 0 then c else Reached(n, n - 1, es[1..])
  }

  lemma PullMoves(hash: Hasher, window: nat, log: seq<LogEntry>, c: nat, rd: Reader)
    requires Injective(hash) && LogOk(hash, log) && c < |log| && rd.cursor == log[c].hash
    ensures |log| - 1 - c < window ==>
              PullStep(window, log, rd) == Reader(log[|log| - 1].hash, rd.delivered + Views(log[c + 1..]))
    ensures |log| - 1 - c >= window ==> PullStep(window, log, rd) == rd
  {
    PullDelivers(hash, window, log, c);
    if |log| - 1 - c == 0 && window > 0 {
      assert Views(log[c + 1..]) == [] && rd.delivered + [] == rd.delivered;
    }
  }

  lemma {:induction false} FinalLogExtends(hash: Hasher, log: seq<LogEntry>, es: seq<Event>)
    requires Lawful(hash, log, es)
    ensures log <= FinalLog(log, es) && LogOk(hash, FinalLog(log, es))
    decreases |es|
  {
    if es != [] {
      match es[0]
      case Grow(more) => FinalLogExtends(hash, more, es[1..]);
      case Pull => FinalLogExtends(hash, log, es[1..]);
    }
  }

  /** The rest of an earlier log and what came after it are one contiguous stretch of the later log. */
  lemma SegmentsJoin(log: seq<LogEntry>, later: seq<LogEntry>, c: nat, to: nat)
    requires c < |log| && log <= later && |log| - 1 <= to < |later|
    ensures Views(log[c + 1..]) + Views(later[|log|..to + 1]) == Views(later[c + 1..to + 1])
  {
  }

  /**
   From place `c` to place `to` of the final log: the cursor is there, and what is between was delivered once, in order.
   */
  ghost predicate Delivered(last: seq<LogEntry>, c: nat, to: int, rd: Reader, end: Reader) {
    && c <= to < |last| && end.cursor == last[to].hash
    && end.delivered == rd.delivered + Views(last[c + 1..to + 1])
  }

  lemma DeliveredNothing(log: seq<LogEntry>, c: nat, rd: Reader)
    requires c < |log| && rd.cursor == log[c].hash
    ensures Delivered(log, c, c, rd, rd)
  {
    assert Views(log[c + 1..c + 1]) == [];
  }

  lemma DeliveredByPull(log: seq<LogEntry>, last: seq<LogEntry>, c: nat, to: int, rd: Reader, next: Reader, end: Reader)
    requires c < |log| && log <= last && next.delivered == rd.delivered + Views(log[c + 1..])
    requires Delivered(last, |log| - 1, to, next, end)
    ensures Delivered(last, c, to, rd, end)
  {
    SegmentsJoin(log, last, c, to);
  }

  /**
   Exactly-once sync: in every timely run, the segments the pulls delivered concatenate to the contiguous stretch of the
   log from just after the starting cursor up to the place reached, with no gap and no duplicate.
   */
  lemma {:induction false} ExactlyOnce(
    hash: Hasher, window: nat, log: seq<LogEntry>, c: nat, rd: Reader, es: seq<Event>)
    requires Injective(hash) && Lawful(hash, log, es) && c < |log| && rd.cursor == log[c].hash
    requires Timely(window, |log|, c, es)
    ensures Delivered(FinalLog(log, es), c, Reached(|log|, c, es), rd, Run(window, log, rd, es))
    decreases |es|
  {
    if es == [] {
      DeliveredNothing(log, c, rd);
    } else if es[0].Grow? {
      ExactlyOnce(hash, window, es[0].log, c, rd, es[1..]);
    } else {
      var next := PullStep(window, log, rd);
      FinalLogExtends(hash, log, es);
      PullMoves(hash, window, log, c, rd);
      ExactlyOnce(hash, window, log, |log| - 1, next, es[1..]);
      DeliveredByPull(log, FinalLog(log, es), c, Reached(|log|, c, es), rd, next, Run(window, log, rd, es));
    }
  }

  /** A reader whose cursor has left the window never receives anything again. */
  lemma {:induction false} LeftBehind(hash: Hasher, window: nat, log: seq<LogEntry>, c: nat, rd: Reader, es: seq<Event>)
    requires Injective(hash) && Lawful(hash, log, es) && c < |log| && rd.cursor == log[c].hash
    requires |log| - 1 - c >= window
    ensures Run(window, log, rd, es) == rd
    decreases |es|
  {
    if es != [] {
      match es[0]
      case Grow(more) => LeftBehind(hash, window, more, c, rd, es[1..]);
      case Pull =>
        PullMoves(hash, window, log, c, rd);
        LeftBehind(hash, window, log, c, rd, es[1..]);
    }
  }

  lemma {:induction false} ReachedEnd(hash: Hasher, log: seq<LogEntry>, c: nat, es: seq<Event>)
    requires Lawful(hash, log, es) && c < |log| && es != [] && es[|es| - 1].Pull?
    ensures Reached(|log|, c, es) == |FinalLog(log, es)| - 1
    decreases |es|
  {
    assert |es| > 1 ==> es[1..][|es| - 2] == es[|es| - 1];
    if |es| > 1 {
      match es[0]
      case Grow(more) => ReachedEnd(hash, more, c, es[1..]);
      case Pull => ReachedEnd(hash, log, |log| - 1, es[1..]);
    }
  }

  /** An untimely run loses entries for good. */
  lemma {:induction false} UntimelyLoses(
    hash: Hasher, window: nat, log: seq<LogEntry>, c: nat, rd: Reader, es: seq<Event>)
    requires Injective(hash) && window > 0 && Lawful(hash, log, es) && c < |log| && rd.cursor == log[c].hash
    requires !Timely(window, |log|, c, es)
    ensures |Run(window, log, rd, es).delivered| < |rd.delivered| + |FinalLog(log, es)| - 1 - c
    decreases |es|
  {
    FinalLogExtends(hash, log, es);
    match es[0]
    case Grow(more) => UntimelyLoses(hash, window, more, c, rd, es[1..]);
    case Pull =>
      PullMoves(hash, window, log, c, rd);
      if |log| - 1 - c < window {
        UntimelyLoses(hash, window, log, |log| - 1, PullStep(window, log, rd), es[1..]);
      } else {
        LeftBehind(hash, window, log, c, rd, es);
      }
  }

  /**
   A run that ends in a pull delivers everything after the starting cursor if and only if it was timely throughout.
   */
  lemma CompleteIffTimely(hash: Hasher, window: nat, log: seq<LogEntry>, c: nat, rd: Reader, es: seq<Event>)
    requires Injective(hash) && window > 0 && Lawful(hash, log, es) && c < |log| && rd.cursor == log[c].hash
    requires es != [] && es[|es| - 1].Pull?
    ensures var last := FinalLog(log, es);
      |log| <= |last| &&
      (Run(window, log, rd, es).delivered == rd.delivered + Views(last[c + 1..]) <==> Timely(window, |log|, c, es))
  {
    FinalLogExtends(hash, log, es);
    if Timely(window, |log|, c, es) {
      ExactlyOnce(hash, window, log, c, rd, es);
      ReachedEnd(hash, log, c, es);
      var last := FinalLog(log, es);
      assert last[c + 1..|last|] == last[c + 1..];
    } else {
      UntimelyLoses(hash, window, log, c, rd, es);
    }
  }
}
