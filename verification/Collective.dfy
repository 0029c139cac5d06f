/** The collective log, its cached sliding-window index, and the single writer (src/dsm/collective.py). */
module Collective {
  import opened Common

  /** The projection written as an entry's content. */
  datatype Body = Body(
    agentId: string, sourceHash: string, contentHash: string, summary: string, detail: string,
    keyFindings: seq<string>, actionType: string, agentPrevHash: string)

  datatype LogEntry = LogEntry(hash: string, prevHash: Option<string>, body: Body, timestamp: int)

  datatype CollectiveEntry = CollectiveEntry(hash: string, body: Body, contributedAt: int)

  /** The stored hash of an entry, from its predecessor's hash, its content and its time. */
  type Hasher = Stamp -> string

  /** What an entry's hash covers. */
  datatype Stamp = Stamp(prevHash: Option<string>, body: Body, timestamp: int)

  ghost predicate Collide(hash: Hasher, x: Stamp, y: Stamp) {
    hash(x) == hash(y)
  }

  ghost predicate Injective(hash: Hasher) {
    forall x, y :: Collide(hash, x, y) ==> x == y
  }

  function StampOf(e: LogEntry): Stamp {
    Stamp(e.prevHash, e.body, e.timestamp)
  }

  function View(e: LogEntry): CollectiveEntry {
    CollectiveEntry(e.hash, e.body, e.timestamp)
  }

  function Views(log: seq<LogEntry>): (r: seq<CollectiveEntry>)
    ensures |r| == |log|
    ensures forall i {:trigger r[i]} :: 0 <= i < |log| ==> r[i] == View(log[i])
  {
    seq(|log|, i requires 0 <= i < |log| => View(log[i]))
  }

  /** A fresh rebuild of the index: the newest `window` entries, oldest first. */
  function Rebuild(log: seq<LogEntry>, window: nat): (r: seq<CollectiveEntry>)
    ensures |r| == if |log| <= window then |log| else window
  {
    Views(Newest(log, window))
  }

  /** An index of a log written under a nondecreasing clock. */
  ghost predicate Chronological(index: seq<CollectiveEntry>) {
    forall i, j :: 0 <= i < j < |index| ==> index[i].contributedAt <= index[j].contributedAt
  }

  /** The newest contribution per agent, as the index loop leaves it. */
  function LastByAgent(index: seq<CollectiveEntry>): map<string, string> {
    if index == [] then map[]
    else LastByAgent(index[..|index| - 1])[index[|index| - 1].body.agentId := index[|index| - 1].hash]
  }

  /** The hash of the latest entry by `agent`, or the empty string. */
  function LatestHash(index: seq<CollectiveEntry>, agent: string): string {
    if index == [] then ""
    else if index[|index| - 1].body.agentId == agent then index[|index| - 1].hash
    else LatestHash(index[..|index| - 1], agent)
  }

  lemma {:induction false} LastByAgentLookup(index: seq<CollectiveEntry>, agent: string)
    ensures (if agent in LastByAgent(index) then LastByAgent(index)[agent] else "") == LatestHash(index, agent)
  {
    if index != [] {
      LastByAgentLookup(index[..|index| - 1], agent);
    }
  }

  /** What `LatestHash` returns belongs to the agent's last entry, or there is none. */
  lemma {:induction false} LatestHashMeans(index: seq<CollectiveEntry>, agent: string)
    ensures (exists i :: 0 <= i < |index| &&
               index[i].body.agentId == agent && index[i].hash == LatestHash(index, agent) &&
               forall j :: i < j < |index| ==> index[j].body.agentId != agent) ||
            (LatestHash(index, agent) == "" && forall i :: 0 <= i < |index| ==> index[i].body.agentId != agent)
  {
    if index != [] {
      var front := index[..|index| - 1];
      LatestHashMeans(front, agent);
      if index[|index| - 1].body.agentId != agent && exists i :: 0 <= i < |front| && front[i].body.agentId == agent {
        var i :| 0 <= i < |front| && front[i].body.agentId == agent && front[i].hash == LatestHash(front, agent) &&
                 forall j :: i < j < |front| ==> front[j].body.agentId != agent;
        assert index[i] == front[i];
        assert forall j :: i < j < |front| ==> index[j] == front[j];
      }
    }
  }

  /** Entries after the first one carrying `cursor`; none when it is not in the index. */
  function After(index: seq<CollectiveEntry>, cursor: string): seq<CollectiveEntry> {
    if index == [] then [] else if index[0].hash == cursor then index[1..] else After(index[1..], cursor)
  }

  function Reversed<T>(xs: seq<T>): (r: seq<T>)
    ensures |r| == |xs|
    ensures forall i {:trigger r[i]} :: 0 <= i < |xs| ==> r[i] == xs[|xs| - 1 - i]
  {
    seq(|xs|, i requires 0 <= i < |xs| => xs[|xs| - 1 - i])
  }

  /** An empty filter string filters nothing. */
  predicate Matches(e: CollectiveEntry, agent: string, entryType: string) {
    (agent == "" || e.body.agentId == agent) && (entryType == "" || e.body.actionType == entryType)
  }

  function Filtered(xs: seq<CollectiveEntry>, agent: string, entryType: string): seq<CollectiveEntry> {
    if xs == [] then []
    else if Matches(xs[0], agent, entryType) then [xs[0]] + Filtered(xs[1..], agent, entryType)
    else Filtered(xs[1..], agent, entryType)
  }

  lemma {:induction false} FilteredConcat(
    a: seq<CollectiveEntry>, b: seq<CollectiveEntry>, agent: string, entryType: string)
    ensures Filtered(a + b, agent, entryType) == Filtered(a, agent, entryType) + Filtered(b, agent, entryType)
  {
    if a == [] {
      assert a + b == b;
    } else {
      FilteredConcat(a[1..], b, agent, entryType);
      assert (a + b)[0] == a[0] && (a + b)[1..] == a[1..] + b;
      ConcatAssoc([a[0]], Filtered(a[1..], agent, entryType), Filtered(b, agent, entryType));
    }
  }

  /** The entry is of that agent and of that type; an empty name asks for all. */
  ghost predicate AskedFor(e: CollectiveEntry, agent: string, entryType: string) {
    && (agent != "" ==> e.body.agentId == agent)
    && (entryType != "" ==> e.body.actionType == entryType)
  }

  lemma FilteredSnoc(xs: seq<CollectiveEntry>, x: CollectiveEntry, agent: string, entryType: string)
    ensures AskedFor(x, agent, entryType) ==>
            Filtered(xs + [x], agent, entryType) == Filtered(xs, agent, entryType) + [x]
    ensures !AskedFor(x, agent, entryType) ==> Filtered(xs + [x], agent, entryType) == Filtered(xs, agent, entryType)
  {
    FilteredConcat(xs, [x], agent, entryType);
    assert [x][1..] == [];
  }

  /** Filtering keeps, in order, exactly the entries asked for. */
  lemma {:induction false} FilteredSelects(xs: seq<CollectiveEntry>, agent: string, entryType: string)
    returns (places: seq<int>)
    ensures Selects(xs, places, Filtered(xs, agent, entryType))
    ensures forall i :: 0 <= i < |xs| ==> (i in places <==> AskedFor(xs[i], agent, entryType))
  {
    places := [];
    if xs != [] {
      var front, last := xs[..|xs| - 1], xs[|xs| - 1];
      var before := FilteredSelects(front, agent, entryType);
      assert xs == front + [last];
      FilteredSnoc(front, last, agent, entryType);
      SelectsSkip(front, last, before, Filtered(front, agent, entryType));
      SelectsTake(front, last, before, Filtered(front, agent, entryType));
      places := if AskedFor(last, agent, entryType) then before + [|front|] else before;
    }
  }

  function Take<T>(xs: seq<T>, limit: nat): (r: seq<T>)
    ensures |r| == if |xs| <= limit then |xs| else limit
    ensures r == xs[..|r|]
  {
    if |xs| <= limit then xs else xs[..limit]
  }

  /** Newest first, filtered, cut. */
  function Recent(index: seq<CollectiveEntry>, limit: nat, agent: string, entryType: string): seq<CollectiveEntry> {
    Take(Filtered(Reversed(index), agent, entryType), limit)
  }

  /**
   What `recent` returns: the newest entries asked for, newest first, all of them or `limit`. `places` counts from the
   newest end of the index.
   */
  lemma RecentSelects(index: seq<CollectiveEntry>, limit: nat, agent: string, entryType: string)
    returns (places: seq<int>)
    ensures Selects(Reversed(index), places, Recent(index, limit, agent, entryType)) && |places| <= limit
    ensures forall k :: 0 <= k < |places| ==> AskedFor(index[|index| - 1 - places[k]], agent, entryType)
    ensures forall i :: 0 <= i < |index| && i !in places && AskedFor(index[|index| - 1 - i], agent, entryType) ==>
              |places| == limit && forall k :: 0 <= k < |places| ==> places[k] < i
  {
    var xs, kept := Reversed(index), Filtered(Reversed(index), agent, entryType);
    var all := FilteredSelects(xs, agent, entryType);
    var n := if |all| <= limit then |all| else limit;
    SelectsPrefix(xs, all, kept, n);
    places := all[..n];
    assert Recent(index, limit, agent, entryType) == kept[..n];
    forall k | 0 <= k < |places| ensures AskedFor(index[|index| - 1 - places[k]], agent, entryType) {
      assert places[k] in all && xs[places[k]] == index[|index| - 1 - places[k]];
    }
    forall i | 0 <= i < |index| && i !in places && AskedFor(index[|index| - 1 - i], agent, entryType)
      ensures |places| == limit && forall k :: 0 <= k < |places| ==> places[k] < i
    {
      assert xs[i] == index[|index| - 1 - i] && i in all;
      assert |all| <= limit ==> places == all;
    }
  }

  // ----- the log -----

  function Tip(log: seq<LogEntry>): Option<string> {
    if log == [] then None else Some(log[|log| - 1].hash)
  }

  function Appended(hash: Hasher, log: seq<LogEntry>, body: Body, now: int): seq<LogEntry> {
    log + [LogEntry(hash(Stamp(Tip(log), body, now)), Tip(log), body, now)]
  }

  ghost predicate LinkOk(hash: Hasher, log: seq<LogEntry>, i: nat)
    requires i < |log|
  {
    log[i].prevHash == Tip(log[..i]) && log[i].hash == hash(StampOf(log[i]))
  }

  ghost predicate LogOk(hash: Hasher, log: seq<LogEntry>) {
    forall i :: 0 <= i < |log| ==> LinkOk(hash, log, i)
  }

  lemma AppendedOk(hash: Hasher, log: seq<LogEntry>, body: Body, now: int)
    requires LogOk(hash, log)
    ensures LogOk(hash, Appended(hash, log, body, now))
  {
    var r := Appended(hash, log, body, now);
    forall i | 0 <= i < |r| ensures LinkOk(hash, r, i) {
      assert i <= |log| && r[..i] == log[..i];
      if i < |log| { assert LinkOk(hash, log, i); } else { assert log[..i] == log; }
    }
  }

  /** Chaining makes hashes distinct: no two places of one log share a hash. */
  lemma {:induction false} HashesDistinct(hash: Hasher, log: seq<LogEntry>, i: nat, j: nat)
    requires Injective(hash) && LogOk(hash, log) && i < j < |log|
    ensures log[i].hash != log[j].hash
    decreases i
  {
    assert LinkOk(hash, log, i) && LinkOk(hash, log, j);
    assert log[i].hash == log[j].hash ==> Collide(hash, StampOf(log[i]), StampOf(log[j]));
    if i > 0 { HashesDistinct(hash, log, i - 1, j - 1); }
  }

  // ----- the writer -----

  /**
   One private entry offered to the collective. `verdict` is the orchestrator's reason to refuse it, if any;
   `writeError` is set when the append would fail; `summary` is what a caller-supplied summariser returned.
   */
  datatype Input = Input(
    hash: string, content: string, eventType: string, summary: Option<string>, detail: string, keyFindings: seq<string>,
    verdict: Option<string>, writeError: Option<string>, now: int)

  predicate Lands(input: Input) {
    input.verdict.None? && input.writeError.None?
  }

  function Project(agent: string, input: Input, digest: string -> string, prev: string): Body {
    Body(agent, input.hash, digest(input.content),
         if input.summary.Some? then input.summary.value else Take(input.content, 100),
         input.detail, input.keyFindings, input.eventType, prev)
  }

  /** The fixed surroundings of one engine: how hashes are computed and how wide the index is. */
  datatype Engine = Engine(hash: Hasher, digest: string -> string, window: nat)

  function PushOne(eng: Engine, log: seq<LogEntry>, agent: string, input: Input): seq<LogEntry> {
    if Lands(input) then
      var prev := LatestHash(Rebuild(log, eng.window), agent);
      Appended(eng.hash, log, Project(agent, input, eng.digest, prev), input.now)
    else log
  }

  function PushAll(eng: Engine, log: seq<LogEntry>, agent: string, inputs: seq<Input>): seq<LogEntry>
    decreases |inputs|
  {
    if inputs == [] then log else PushAll(eng, PushOne(eng, log, agent, inputs[0]), agent, inputs[1..])
  }

  function Landing(inputs: seq<Input>): seq<Input> {
    if inputs == [] then []
    else if Lands(inputs[0]) then [inputs[0]] + Landing(inputs[1..])
    else Landing(inputs[1..])
  }

  /** The rejection an input causes: the refusal's reason, else the write error's. */
  function Rejection(input: Input): seq<(string, string)> {
    if input.verdict.Some? then [(input.hash, input.verdict.value)]
    else if input.writeError.Some? then [(input.hash, input.writeError.value)]
    else []
  }

  function Rejections(inputs: seq<Input>): seq<(string, string)> {
    if inputs == [] then [] else Rejection(inputs[0]) + Rejections(inputs[1..])
  }

  lemma {:induction false} RejectionsConcat(a: seq<Input>, b: seq<Input>)
    ensures Rejections(a + b) == Rejections(a) + Rejections(b)
  {
    if a == [] {
      assert a + b == b;
    } else {
      RejectionsConcat(a[1..], b);
      assert (a + b)[0] == a[0] && (a + b)[1..] == a[1..] + b;
      ConcatAssoc(Rejection(a[0]), Rejections(a[1..]), Rejections(b));
    }
  }

  /** The report of one refused input. */
  ghost predicate Refuses(input: Input, line: (string, string)) {
    line.0 == input.hash &&
    if input.verdict.Some? then input.verdict == Some(line.1) else input.writeError == Some(line.1)
  }

  /** The rejected list has one line for each input that was refused or failed to write, in order, with its reason. */
  lemma {:induction false} RejectionsAre(inputs: seq<Input>) returns (places: seq<int>)
    ensures |places| == |Rejections(inputs)| && forall j, k :: 0 <= j < k < |places| ==> places[j] < places[k]
    ensures forall k :: 0 <= k < |places| ==>
              0 <= places[k] < |inputs| && Refuses(inputs[places[k]], Rejections(inputs)[k])
    ensures forall i :: 0 <= i < |inputs| ==>
              (i in places <==> inputs[i].verdict.Some? || inputs[i].writeError.Some?)
  {
    places := [];
    if inputs != [] {
      var front, last := inputs[..|inputs| - 1], inputs[|inputs| - 1];
      var before := RejectionsAre(front);
      assert inputs == front + [last];
      RejectionsConcat(front, [last]);
      assert [last][1..] == [] && Rejections([last]) == Rejection(last) + [];
      if last.verdict.Some? || last.writeError.Some? {
        assert Rejections(inputs) == Rejections(front) + Rejection(last) && |Rejection(last)| == 1;
        places := before + [|front|];
      } else {
        assert Rejections(inputs) == Rejections(front);
        places := before;
      }
    }
  }

  /** Each projection names the same agent's latest projection among the newest `window` entries before it. */
  ghost predicate AgentLinkOk(window: nat, log: seq<LogEntry>, i: nat)
    requires i < |log|
  {
    log[i].body.agentPrevHash == LatestHash(Rebuild(log[..i], window), log[i].body.agentId)
  }

  ghost predicate AgentChains(window: nat, log: seq<LogEntry>) {
    forall i :: 0 <= i < |log| ==> AgentLinkOk(window, log, i)
  }

  lemma PushOneGrows(eng: Engine, log: seq<LogEntry>, agent: string, input: Input)
    ensures log <= PushOne(eng, log, agent, input)
    ensures |PushOne(eng, log, agent, input)| == |log| + if Lands(input) then 1 else 0
  {
  }

  function Hashes(log: seq<LogEntry>): (r: seq<string>)
    ensures |r| == |log|
    ensures forall i {:trigger r[i]} :: 0 <= i < |log| ==> r[i] == log[i].hash
  {
    seq(|log|, i requires 0 <= i < |log| => log[i].hash)
  }

  lemma PushOneKeeps(eng: Engine, log: seq<LogEntry>, agent: string, input: Input)
    requires LogOk(eng.hash, log) && AgentChains(eng.window, log)
    ensures LogOk(eng.hash, PushOne(eng, log, agent, input)) && AgentChains(eng.window, PushOne(eng, log, agent, input))
    ensures log <= PushOne(eng, log, agent, input)
    ensures |PushOne(eng, log, agent, input)| == |log| + if Lands(input) then 1 else 0
  {
    var r := PushOne(eng, log, agent, input);
    if Lands(input) {
      AppendedOk(eng.hash, log, r[|log|].body, input.now);
      forall i | 0 <= i < |r| ensures AgentLinkOk(eng.window, r, i) {
        assert i <= |log| && r[..i] == log[..i];
        if i < |log| { assert AgentLinkOk(eng.window, log, i); } else { assert log[..i] == log; }
      }
    }
  }

  /** The stored entry is the input's projection, stamped with its time. */
  ghost predicate Carries(eng: Engine, agent: string, e: LogEntry, input: Input) {
    && e.timestamp == input.now && e.body.agentId == agent
    && e.body.sourceHash == input.hash && e.body.contentHash == eng.digest(input.content)
    && (input.summary == Some(e.body.summary) || (input.summary.None? && e.body.summary == Take(input.content, 100)))
    && e.body.detail == input.detail && e.body.keyFindings == input.keyFindings && e.body.actionType == input.eventType
  }

  /** Every input lands or is rejected, never both; the log only grows; both chains are kept. */
  lemma {:induction false} PushAllKeeps(eng: Engine, log: seq<LogEntry>, agent: string, inputs: seq<Input>)
    requires LogOk(eng.hash, log) && AgentChains(eng.window, log)
    ensures var r := PushAll(eng, log, agent, inputs);
      && LogOk(eng.hash, r) && AgentChains(eng.window, r)
      && |Landing(inputs)| + |Rejections(inputs)| == |inputs|
      && log <= r && |r| == |log| + |Landing(inputs)|
    decreases |inputs|
  {
    if inputs != [] {
      PushOneKeeps(eng, log, agent, inputs[0]);
      PushAllKeeps(eng, PushOne(eng, log, agent, inputs[0]), agent, inputs[1..]);
    }
  }

  lemma {:induction false} PushAllGrows(eng: Engine, log: seq<LogEntry>, agent: string, inputs: seq<Input>)
    ensures log <= PushAll(eng, log, agent, inputs) && |PushAll(eng, log, agent, inputs)| == |log| + |Landing(inputs)|
    decreases |inputs|
  {
    if inputs != [] {
      PushOneGrows(eng, log, agent, inputs[0]);
      PushAllGrows(eng, PushOne(eng, log, agent, inputs[0]), agent, inputs[1..]);
    }
  }

  lemma PushOneCarries(eng: Engine, log: seq<LogEntry>, agent: string, input: Input)
    requires Lands(input)
    ensures var r := PushOne(eng, log, agent, input); |r| == |log| + 1 && Carries(eng, agent, r[|log|], input)
  {
  }

  /** What a push adds is exactly its landing inputs, in order. */
  lemma {:induction false} PushAllContent(eng: Engine, log: seq<LogEntry>, agent: string, inputs: seq<Input>, k: nat)
    requires k < |Landing(inputs)|
    ensures var r := PushAll(eng, log, agent, inputs);
      |log| + k < |r| && Carries(eng, agent, r[|log| + k], Landing(inputs)[k])
    decreases |inputs|
  {
    PushAllGrows(eng, log, agent, inputs);
    PushOneGrows(eng, log, agent, inputs[0]);
    var next := PushOne(eng, log, agent, inputs[0]);
    PushAllGrows(eng, next, agent, inputs[1..]);
    if Lands(inputs[0]) && k == 0 {
      PushOneCarries(eng, log, agent, inputs[0]);
    } else {
      PushAllContent(eng, next, agent, inputs[1..], if Lands(inputs[0]) then k - 1 else k);
    }
  }
}
