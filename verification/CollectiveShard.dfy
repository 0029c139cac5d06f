/** The read side with its lazy index, and the engine that writes, as mutable objects (src/dsm/collective.py). */
module CollectiveShard {
  import opened Common
  import opened Collective
  import SyncRuns

  class Storage {
    var log: seq<LogEntry>

    constructor ()
      ensures log == []
    {
      log := [];
    }
  }

  class Shard {
    const storage: Storage
    const window: nat
    var index: Option<seq<CollectiveEntry>>
    var lastByAgent: map<string, string>

    /** A cached index is a fresh rebuild; without one, the per-agent map may be stale. */
    ghost predicate Valid()
      reads this, storage
    {
      index.Some? ==> index.value == Rebuild(storage.log, window) && lastByAgent == LastByAgent(index.value)
    }

    constructor (storage: Storage, window: nat)
      ensures this.storage == storage && this.window == window && index.None? && Valid()
    {
      this.storage, this.window := storage, window;
      index, lastByAgent := None, map[];
    }

    method Invalidate()
      modifies this`index
      ensures index.None? && Valid()
    {
      index := None;
    }

    method EnsureIndex() returns (r: seq<CollectiveEntry>)
      requires Valid()
      modifies this
      ensures Valid() && index == Some(r) && r == Rebuild(storage.log, window)
    {
      if index.Some? {
        return index.value;
      }
      var entries := Newest(storage.log, window);
      r := [];
      var agentLast: map<string, string> := map[];
      for i := 0 to |entries|
        invariant r == Views(entries[..i])
        invariant agentLast == LastByAgent(r)
      {
        assert entries[..i + 1] == entries[..i] + [entries[i]];
        var ce := View(entries[i]);
        ghost var before := r;
        r := r + [ce];
        assert r[..|r| - 1] == before;
        agentLast := agentLast[ce.body.agentId := ce.hash];
      }
      assert entries[..|entries|] == entries;
      index := Some(r);
      lastByAgent := agentLast;
    }

    method LastHashForAgent(agent: string) returns (h: string)
      requires Valid()
      modifies this
      ensures Valid()
      ensures h == LatestHash(Rebuild(storage.log, window), agent)
    {
      var r := EnsureIndex();
      LastByAgentLookup(r, agent);
      h := if agent in lastByAgent then lastByAgent[agent] else "";
    }

    method Since(cursor: string) returns (r: seq<CollectiveEntry>)
      requires Valid()
      modifies this
      ensures Valid()
      ensures r == After(Rebuild(storage.log, window), cursor)
    {
      var all := EnsureIndex();
      var found := false;
      r := [];
      for i := 0 to |all|
        invariant found ==> r + all[i..] == After(all, cursor)
        invariant !found ==> r == [] && After(all[i..], cursor) == After(all, cursor)
      {
        assert all[i..] == [all[i]] + all[i + 1..];
        if found {
          r := r + [all[i]];
        }
        if all[i].hash == cursor {
          found := true;
        }
      }
    }

    method RecentEntries(limit: nat, agent: string, entryType: string) returns (r: seq<CollectiveEntry>)
      requires Valid()
      modifies this
      ensures Valid()
      ensures r == Recent(Rebuild(storage.log, window), limit, agent, entryType)
    {
      var all := EnsureIndex();
      r := Recent(all, limit, agent, entryType);
    }
  }

  datatype PushResult = PushResult(admitted: seq<string>, rejected: seq<(string, string)>)

  class SyncEngine {
    const hash: Hasher
    const digest: string -> string
    const collective: Shard

    constructor (hash: Hasher, digest: string -> string, collective: Shard)
      ensures this.hash == hash && this.digest == digest && this.collective == collective
    {
      this.hash, this.digest, this.collective := hash, digest, collective;
    }

    function Params(): Engine
      reads this
    {
      Engine(hash, digest, collective.window)
    }

    /**
     Pull after a cursor; without one, the newest hundred. Reports how many were seen and the last hash among them.
     */
    method Pull(cursor: string) returns (synced: nat, last: string)
      requires collective.Valid()
      modifies collective
      ensures collective.Valid()
      ensures cursor != "" ==>
                synced == |After(Rebuild(collective.storage.log, collective.window), cursor)| &&
                last == SyncRuns.PullStep(collective.window, collective.storage.log, SyncRuns.Reader(cursor, [])).cursor
      ensures cursor == "" ==>
                var newest := Recent(Rebuild(collective.storage.log, collective.window), 100, "", "");
                synced == |newest| && last == if newest == [] then "" else newest[|newest| - 1].hash
    {
      var found: seq<CollectiveEntry>;
      if cursor != "" {
        found := collective.Since(cursor);
      } else {
        found := collective.RecentEntries(100, "", "");
      }
      synced := |found|;
      last := if found == [] then cursor else found[|found| - 1].hash;
    }

    /** One input: refused, failed on write, or appended with the index invalidated. */
    method PushInput(agent: string, input: Input) returns (refusal: Option<string>)
      requires collective.Valid()
      modifies collective, collective.storage
      ensures collective.Valid()
      ensures collective.storage.log == PushOne(Params(), old(collective.storage.log), agent, input)
      ensures refusal.None? <==> Lands(input)
      ensures refusal.Some? ==> Rejection(input) == [(input.hash, refusal.value)]
    {
      if input.verdict.Some? {
        return input.verdict;
      }
      var prev := collective.LastHashForAgent(agent);
      var body := Project(agent, input, digest, prev);
      if input.writeError.Some? {
        return input.writeError;
      }
      collective.storage.log := Appended(hash, collective.storage.log, body, input.now);
      collective.Invalidate();
      return None;
    }

    /** Project every admitted input, one append and one invalidation at a time. */
    method Push(agent: string, inputs: seq<Input>) returns (result: PushResult)
      requires collective.Valid()
      modifies collective, collective.storage
      ensures collective.Valid()
      ensures collective.storage.log == PushAll(Params(), old(collective.storage.log), agent, inputs)
      ensures old(collective.storage.log) <= collective.storage.log
      ensures result.rejected == Rejections(inputs)
      ensures result.admitted == Hashes(collective.storage.log[|old(collective.storage.log)|..])
    {
      ghost var start := collective.storage.log;
      ghost var eng := Params();
      var admitted: seq<string>, rejected: seq<(string, string)> := [], [];
      var i := 0;
      while i < |inputs|
        invariant 0 <= i <= |inputs|
        invariant collective.Valid()
        invariant PushAll(eng, collective.storage.log, agent, inputs[i..]) == PushAll(eng, start, agent, inputs)
        invariant rejected + Rejections(inputs[i..]) == Rejections(inputs)
        invariant start <= collective.storage.log
        invariant admitted == Hashes(collective.storage.log[|start|..])
      {
        ghost var before := collective.storage.log;
        PushOneGrows(eng, before, agent, inputs[i]);
        PushAllStep(eng, before, agent, inputs, i);
        RejectionsStep(inputs, i, rejected);
        var refusal := PushInput(agent, inputs[i]);
        ghost var now := collective.storage.log;
        if refusal.Some? {
          assert now == before && Rejection(inputs[i]) == [(inputs[i].hash, refusal.value)];
          rejected := rejected + [(inputs[i].hash, refusal.value)];
        } else {
          assert rejected + Rejection(inputs[i]) == rejected;
          HashesStep(start, before, now);
          admitted := admitted + [collective.storage.log[|collective.storage.log| - 1].hash];
        }
        i := i + 1;
      }
      assert inputs[i..] == [];
      result := PushResult(admitted, rejected);
    }
  }

  lemma PushAllStep(eng: Engine, log: seq<LogEntry>, agent: string, inputs: seq<Input>, i: nat)
    requires i < |inputs|
    ensures PushAll(eng, log, agent, inputs[i..]) ==
            PushAll(eng, PushOne(eng, log, agent, inputs[i]), agent, inputs[i + 1..])
  {
    assert inputs[i..][1..] == inputs[i + 1..];
  }

  lemma HashesStep(start: seq<LogEntry>, before: seq<LogEntry>, now: seq<LogEntry>)
    requires start <= before && before <= now && |now| == |before| + 1
    ensures Hashes(now[|start|..]) == Hashes(before[|start|..]) + [now[|now| - 1].hash]
  {
  }

  lemma RejectionsStep(inputs: seq<Input>, i: nat, done: seq<(string, string)>)
    requires i < |inputs|
    requires done + Rejections(inputs[i..]) == Rejections(inputs)
    ensures done + Rejection(inputs[i]) + Rejections(inputs[i + 1..]) == Rejections(inputs)
  {
    assert inputs[i..][1..] == inputs[i + 1..];
    assert Rejections(inputs[i..]) == Rejection(inputs[i]) + Rejections(inputs[i + 1..]);
  }
}
