/** Pins point, sources ground: resolving and reconciling pins (src/hexashard/pins.py). */
module Pins {
  import opened Common

  datatype SourceStatus = Current | Draft | Unverified | SupersededSource

  datatype Source = Source(
    id: string, status: SourceStatus, supersededBy: Option<string>, claimKey: Option<string>,
    claimValue: Option<string>)

  datatype PinStatus = Active | Stale | NeedsReview | Superseded | Broken

  datatype Pin = Pin(id: string, key: string, value: string, sourceRef: Option<string>, status: PinStatus)

  /** Sources by id. */
  type Sources = map<string, Source>

  ghost predicate ValidSources(sources: Sources) {
    forall id :: id in sources ==> sources[id].id == id
  }

  /** A reference or successor counts only when it is a non-empty string. */
  predicate Named(ref: Option<string>) {
    ref.Some? && ref.value != ""
  }

  /** What a pin resolves to, without changing anything. */
  function Resolve(pin: Pin, sources: Sources): PinStatus {
    if !Named(pin.sourceRef) || pin.sourceRef.value !in sources then Broken
    else match sources[pin.sourceRef.value].status
      case Current => Active
      case SupersededSource => Stale
      case Draft => NeedsReview
      case Unverified => NeedsReview
  }

  // ----- the supersession chain -----

  /** Follow `superseded_by` until it is empty, dangling, or leads back to a source already seen. */
  function HeadFrom(sources: Sources, at: string, seen: set<string>): (head: string)
    requires at in sources && seen <= sources.Keys
    ensures head in sources
    decreases sources.Keys - seen
  {
    var next := sources[at].supersededBy;
    if !Named(next) || at in seen || next.value !in sources then at
    else HeadFrom(sources, next.value, seen + {at})
  }

  function ChainHead(sources: Sources, id: string): (head: string)
    requires id in sources
    ensures head in sources
  {
    HeadFrom(sources, id, {})
  }

  method CurrentChainHead(sources: Sources, id: string) returns (head: string)
    requires id in sources
    ensures head in sources && head == ChainHead(sources, id)
  {
    head := id;
    var seen: set<string> := {};
    while Named(sources[head].supersededBy) && head !in seen
      invariant head in sources && seen <= sources.Keys
      invariant HeadFrom(sources, head, seen) == ChainHead(sources, id)
      decreases sources.Keys - seen
    {
      var next := sources[head].supersededBy.value;
      if next !in sources {
        break;
      }
      seen := seen + {head};
      head := next;
    }
  }

  /** The chain ends at its head: there is no stored successor. */
  predicate EndsAt(sources: Sources, head: string)
    requires head in sources
  {
    !Named(sources[head].supersededBy) || sources[head].supersededBy.value !in sources
  }

  lemma EndIsItsOwnHead(sources: Sources, head: string)
    requires head in sources && EndsAt(sources, head)
    ensures ChainHead(sources, head) == head
  {
  }

  // ----- reconciliation -----

  function ReconcileOne(pin: Pin, sources: Sources): Pin {
    var before := Resolve(pin, sources);
    if pin.status == Superseded || before == Active then pin
    else if before == Broken then pin.(status := Broken)
    else
      var head := sources[ChainHead(sources, pin.sourceRef.value)];
      if head.id == pin.sourceRef.value then pin.(status := before)
      else if head.claimKey == Some(pin.key) && head.claimValue.Some? && head.status == Current then
        pin.(sourceRef := Some(head.id), value := head.claimValue.value, status := Active)
      else
        pin.(sourceRef := Some(head.id), status := NeedsReview)
  }

  function ReconcileAll(pins: seq<Pin>, sources: Sources): (r: seq<Pin>)
    ensures |r| == |pins|
    ensures forall i {:trigger r[i]} :: 0 <= i < |pins| ==> r[i] == ReconcileOne(pins[i], sources)
  {
    seq(|pins|, i requires 0 <= i < |pins| => ReconcileOne(pins[i], sources))
  }

  // ----- what reconciling one pin has to do, without the chain walk -----

  /** Each id names the next, and the last names none that is stored. */
  ghost predicate ChainPath(sources: Sources, path: seq<string>) {
    && path != [] && (forall i :: 0 <= i < |path| ==> path[i] in sources)
    && (forall i :: 0 <= i < |path| - 1 ==> Leads(sources, path[i], path[i + 1]))
    && EndsAt(sources, path[|path| - 1])
  }

  ghost predicate Leads(sources: Sources, id: string, next: string) {
    id in sources && next != "" && sources[id].supersededBy == Some(next)
  }

  /** The pin is live and has a stored source that is not current. */
  predicate Outdated(pin: Pin, sources: Sources) {
    && pin.status != Superseded && pin.sourceRef.Some? && pin.sourceRef.value != "" && pin.sourceRef.value in sources
    && sources[pin.sourceRef.value].status != Current
  }

  /** The pin is live and its source is missing. */
  predicate Dangling(pin: Pin, sources: Sources) {
    pin.status != Superseded && (pin.sourceRef.None? || pin.sourceRef.value == "" || pin.sourceRef.value !in sources)
  }

  /** A current source that declares `value` for `key`. */
  predicate Declares(source: Source, key: string, value: string) {
    source.status == Current && source.claimKey == Some(key) && source.claimValue == Some(value)
  }

  /** What becomes of one pin. */
  ghost predicate Reconciled(sources: Sources, pin: Pin, after: Pin) {
    && after.id == pin.id && after.key == pin.key
    && (!Outdated(pin, sources) && !Dangling(pin, sources) ==> after == pin)
    && (Dangling(pin, sources) ==> after == pin.(status := Broken))
    && (Outdated(pin, sources) ==> forall path ::
          ChainPath(sources, path) && path[0] == pin.sourceRef.value ==> Moved(sources, pin, path, after))
  }

  /** A pin with an outdated source whose chain is `path`: it goes to the end, and takes over what that declares. */
  ghost predicate Moved(sources: Sources, pin: Pin, path: seq<string>, after: Pin)
    requires ChainPath(sources, path)
  {
    var head := path[|path| - 1];
    if |path| == 1 then
      after == pin.(status := if sources[head].status == SupersededSource then Stale else NeedsReview)
    else
      && after.sourceRef == Some(head)
      && (forall value :: Declares(sources[head], pin.key, value) ==> after.value == value && after.status == Active)
      && ((forall value :: !Declares(sources[head], pin.key, value)) ==>
            after.value == pin.value && after.status == NeedsReview)
  }

  /** A chain that ends never comes back: otherwise it would never end. */
  lemma {:induction false} PathAgrees(sources: Sources, path: seq<string>, i: nat, j: nat, k: nat)
    requires ChainPath(sources, path) && i < j && j + k < |path| && path[i] == path[j]
    ensures path[i + k] == path[j + k]
  {
    if k > 0 {
      PathAgrees(sources, path, i, j, k - 1);
      assert Leads(sources, path[i + k - 1], path[i + k]) && Leads(sources, path[j + k - 1], path[j + k]);
    }
  }

  lemma PathDistinct(sources: Sources, path: seq<string>, i: nat, j: nat)
    requires ChainPath(sources, path) && i < j < |path|
    ensures path[i] != path[j]
  {
    var k := |path| - 1 - j;
    assert Leads(sources, path[i + k], path[i + k + 1]);
    if path[i] == path[j] { PathAgrees(sources, path, i, j, k); }
  }

  lemma {:induction false} WalkPath(sources: Sources, path: seq<string>, i: nat, seen: set<string>)
    requires ChainPath(sources, path) && i < |path| && seen <= sources.Keys
    requires forall s :: s in seen ==> exists j :: 0 <= j < i && path[j] == s
    ensures HeadFrom(sources, path[i], seen) == path[|path| - 1]
    decreases |path| - i
  {
    if i < |path| - 1 {
      assert Leads(sources, path[i], path[i + 1]);
      forall j | 0 <= j < i ensures path[j] != path[i] {
        PathDistinct(sources, path, j, i);
      }
      WalkPath(sources, path, i + 1, seen + {path[i]});
    }
  }

  lemma PathHead(sources: Sources, path: seq<string>)
    requires ChainPath(sources, path)
    ensures ChainHead(sources, path[0]) == path[|path| - 1]
    ensures |path| > 1 ==> path[0] != path[|path| - 1]
  {
    WalkPath(sources, path, 0, {});
    if |path| > 1 { PathDistinct(sources, path, 0, |path| - 1); }
  }

  lemma ReconcileOneMoves(sources: Sources, pin: Pin, path: seq<string>)
    requires ValidSources(sources) && Outdated(pin, sources) && ChainPath(sources, path) &&
            path[0] == pin.sourceRef.value
    ensures Moved(sources, pin, path, ReconcileOne(pin, sources))
  {
    PathHead(sources, path);
    var head := sources[path[|path| - 1]];
    assert head.claimValue.Some? ==> (Declares(head, pin.key, head.claimValue.value) <==>
      head.status == Current && head.claimKey == Some(pin.key));
  }

  lemma ReconcileOneMeets(sources: Sources, pin: Pin)
    requires ValidSources(sources)
    ensures Reconciled(sources, pin, ReconcileOne(pin, sources))
  {
    if Outdated(pin, sources) {
      forall path | ChainPath(sources, path) && path[0] == pin.sourceRef.value
        ensures Moved(sources, pin, path, ReconcileOne(pin, sources))
      {
        ReconcileOneMoves(sources, pin, path);
      }
    }
  }

  /** One line of the report. */
  datatype Note = Note(
    pinId: string, key: string, was: PinStatus, now: PinStatus, oldRef: Option<string>, newRef: Option<string>,
    valueChanged: bool)

  /**
   What is reported of a pin: for one that stays where it is, its recorded status before; else what it resolved to.
   */
  ghost predicate Notes(sources: Sources, pin: Pin, after: Pin, note: Note) {
    && note.pinId == pin.id && note.key == pin.key && note.now == after.status
    && note.oldRef == pin.sourceRef && note.newRef == after.sourceRef &&
        (note.valueChanged <==> after.value != pin.value)
    && note.was == if after.sourceRef == pin.sourceRef then pin.status else Resolve(pin, sources)
  }

  /** The four resolutions, each exactly when. */
  lemma ResolveMeans(pin: Pin, sources: Sources)
    ensures var known := pin.sourceRef.Some? && pin.sourceRef.value != "" && pin.sourceRef.value in sources;
      && (Resolve(pin, sources) == Broken <==> !known)
      && (Resolve(pin, sources) == Active <==> known && sources[pin.sourceRef.value].status == Current)
      && (Resolve(pin, sources) == Stale <==> known && sources[pin.sourceRef.value].status == SupersededSource)
      && (Resolve(pin, sources) == NeedsReview <==>
          known && sources[pin.sourceRef.value].status in {Draft, Unverified})
  {
  }

  class PinStore {
    var pins: seq<Pin>

    constructor (pins: seq<Pin>)
      ensures this.pins == pins
    {
      this.pins := pins;
    }

    /** Repoint live pins whose source has been superseded, and report each pin that was touched, in order. */
    method Reconcile(sources: Sources) returns (report: seq<Note>, ghost places: seq<int>)
      requires ValidSources(sources)
      modifies this
      ensures pins == ReconcileAll(old(pins), sources)
      ensures forall i :: 0 <= i < |pins| ==> Reconciled(sources, old(pins)[i], pins[i])
      ensures |places| == |report| && forall j, k :: 0 <= j < k < |places| ==> places[j] < places[k]
      ensures forall i :: 0 <= i < |pins| ==>
                (i in places <==> Outdated(old(pins)[i], sources) || Dangling(old(pins)[i], sources))
      ensures forall k :: 0 <= k < |places| ==>
                0 <= places[k] < |pins| && Notes(sources, old(pins)[places[k]], pins[places[k]], report[k])
    {
      report, places := [], [];
      for i := 0 to |pins|
        invariant |pins| == |old(pins)| && |places| == |report|
        invariant pins[i..] == old(pins)[i..]
        invariant pins[..i] == ReconcileAll(old(pins), sources)[..i]
        invariant forall k :: 0 <= k < |places| ==>
                    0 <= places[k] < i && Notes(sources, old(pins)[places[k]], pins[places[k]], report[k])
        invariant forall j, k :: 0 <= j < k < |places| ==> places[j] < places[k]
        invariant forall j :: 0 <= j < i ==>
                    (j in places <==> Outdated(old(pins)[j], sources) || Dangling(old(pins)[j], sources))
      {
        var pin := pins[i];
        assert pin == old(pins)[i];
        var after, note := ReconcilePin(pin, sources);
        pins := pins[i := after];
        if note.Some? {
          report, places := report + [note.value], places + [i];
        }
      }
      forall i | 0 <= i < |pins| ensures Reconciled(sources, old(pins)[i], pins[i]) {
        ReconcileOneMeets(sources, old(pins)[i]);
        assert pins[i] == ReconcileAll(old(pins), sources)[i];
      }
    }
  }

  /** One pin: untouched without a note when it is superseded or resolves as active. */
  method ReconcilePin(pin: Pin, sources: Sources) returns (after: Pin, note: Option<Note>)
    requires ValidSources(sources)
    ensures after == ReconcileOne(pin, sources)
    ensures note.Some? <==> Outdated(pin, sources) || Dangling(pin, sources)
    ensures note.Some? ==> Notes(sources, pin, after, note.value)
  {
    var before := Resolve(pin, sources);
    ResolveMeans(pin, sources);
    if pin.status == Superseded || before == Active {
      return pin, None;
    }
    if before == Broken {
      after := pin.(status := Broken);
      return after, Some(Note(pin.id, pin.key, pin.status, Broken, pin.sourceRef, pin.sourceRef, false));
    }
    var id := CurrentChainHead(sources, pin.sourceRef.value);
    var head := sources[id];
    if head.id == pin.sourceRef.value {
      after := pin.(status := before);
      return after, Some(Note(pin.id, pin.key, pin.status, before, pin.sourceRef, pin.sourceRef, false));
    }
    after := pin.(sourceRef := Some(head.id));
    if head.claimKey == Some(pin.key) && head.claimValue.Some? && head.status == Current {
      after := after.(value := head.claimValue.value, status := Active);
    } else {
      after := after.(status := NeedsReview);
    }
    note := Some(Note(pin.id, pin.key, before, after.status, pin.sourceRef, after.sourceRef, after.value != pin.value));
  }

  /** Some current source declares `value` for `key`. */
  ghost predicate Declared(sources: Sources, key: string, value: string) {
    exists id :: id in sources && sources[id].status == Current && sources[id].claimKey == Some(key) &&
      sources[id].claimValue == Some(value)
  }

  /** Values are never invented: each is the old one or a current source's declared value for that very key. */
  lemma ValuesAreGrounded(pins: seq<Pin>, sources: Sources, i: nat)
    requires ValidSources(sources) && i < |pins|
    ensures var p, q := pins[i], ReconcileAll(pins, sources)[i];
      && q.id == p.id && q.key == p.key
      && (q.value == p.value || (Declared(sources, p.key, q.value) && q.status == Active &&
          Resolve(q, sources) == Active))
  {
    var p := pins[i];
    var q := ReconcileOne(p, sources);
    if q.value != p.value {
      var head := ChainHead(sources, p.sourceRef.value);
      assert head in sources && sources[head].claimValue == Some(q.value);
      HeadIsNamed(sources, p.sourceRef.value);
    }
  }

  /** The pin is live and its source resolves, but not to a current one: the only pins that can be repointed. */
  predicate Movable(pin: Pin, sources: Sources) {
    pin.status != Superseded && Resolve(pin, sources) in {Stale, NeedsReview}
  }

  /**
   The condition under which one reconciliation is enough for a pin: it is not movable, or it already sits at its head,
   or the head is current, or the head is a head for itself too and is not marked superseded.
   */
  predicate Settles(pin: Pin, sources: Sources) {
    Movable(pin, sources) ==>
      var head := ChainHead(sources, pin.sourceRef.value);
      || head == pin.sourceRef.value
      || sources[head].status == Current
      || (ChainHead(sources, head) == head && sources[head].status != SupersededSource)
  }

  /** A second reconciliation changes a pin's value, source or status if and only if the pin does not settle. */
  lemma SecondReconcileIdleIffSettles(pin: Pin, sources: Sources)
    requires ValidSources(sources)
    ensures ReconcileOne(ReconcileOne(pin, sources), sources) == ReconcileOne(pin, sources) <==> Settles(pin, sources)
  {
    if Movable(pin, sources) {
      var ref := pin.sourceRef.value;
      var head := ChainHead(sources, ref);
      var once := ReconcileOne(pin, sources);
      assert sources[head].id == head;
      HeadIsNamed(sources, ref);
      if head != ref && sources[head].status != Current {
        assert once == pin.(sourceRef := Some(head), status := NeedsReview);
      }
    }
  }

  /** A head other than the start was reached through a non-empty successor name. */
  lemma {:induction false} HeadIsNamed(sources: Sources, id: string)
    requires id in sources
    ensures ChainHead(sources, id) == id || ChainHead(sources, id) != ""
  {
    HeadFromNamed(sources, id, {});
  }

  lemma {:induction false} HeadFromNamed(sources: Sources, at: string, seen: set<string>)
    requires at in sources && seen <= sources.Keys
    ensures HeadFrom(sources, at, seen) == at || HeadFrom(sources, at, seen) != ""
    decreases sources.Keys - seen
  {
    var next := sources[at].supersededBy;
    if Named(next) && at !in seen && next.value in sources {
      HeadFromNamed(sources, next.value, seen + {at});
    }
  }

  /** Chains that end in a source not marked superseded settle every pin: reconciling twice is reconciling once. */
  lemma EndedChainsSettle(pins: seq<Pin>, sources: Sources)
    requires ValidSources(sources)
    requires forall id :: id in sources ==>
               EndsAt(sources, ChainHead(sources, id)) && sources[ChainHead(sources, id)].status != SupersededSource
    ensures ReconcileAll(ReconcileAll(pins, sources), sources) == ReconcileAll(pins, sources)
  {
    var once := ReconcileAll(pins, sources);
    forall i | 0 <= i < |pins| ensures ReconcileOne(once[i], sources) == once[i] {
      var pin := pins[i];
      if Movable(pin, sources) { EndIsItsOwnHead(sources, ChainHead(sources, pin.sourceRef.value)); }
      SecondReconcileIdleIffSettles(pin, sources);
    }
  }

  // ----- the store that keeps chains acyclic -----

  /** Writes to the source store. `refused` is the store's own cycle check turning a supersession down. */
  datatype SourceOp =
    | Add(source: Source)
    | SetStatus(id: string, status: SourceStatus)
    | Supersede(older: string, newer: string, refused: bool)

  function SourceStep(sources: Sources, op: SourceOp): Sources {
    match op
    case Add(source) => if source.id in sources then sources else sources[source.id := source.(supersededBy := None)]
    case SetStatus(id, status) => if id in sources then sources[id := sources[id].(status := status)] else sources
    case Supersede(o, n, refused) =>
      if o in sources && n in sources && o != n && !refused then
        sources[o := sources[o].(status := SupersededSource, supersededBy := Some(n))]
               [n := sources[n].(status := Current, supersededBy := None)]
      else sources
  }

  function SourceRun(sources: Sources, ops: seq<SourceOp>): Sources
    decreases |ops|
  {
    if ops == [] then sources else SourceRun(SourceStep(sources, ops[0]), ops[1..])
  }

  /** Fresh ids are never empty. */
  predicate FreshId(op: SourceOp) {
    op.Add? ==> op.source.id != ""
  }

  /** Ids match, and stored successors rank strictly higher. */
  ghost predicate Ranked(sources: Sources, rank: map<string, nat>) {
    && ValidSources(sources) && rank.Keys == sources.Keys && "" !in sources
    && (forall id :: id in sources && !EndsAt(sources, id) ==> rank[id] < rank[sources[id].supersededBy.value])
  }

  lemma {:induction false} RankedEnds(sources: Sources, rank: map<string, nat>, at: string, seen: set<string>)
    requires Ranked(sources, rank) && at in sources && seen <= sources.Keys
    requires forall s :: s in seen ==> rank[s] < rank[at]
    ensures EndsAt(sources, HeadFrom(sources, at, seen))
    decreases sources.Keys - seen
  {
    if !EndsAt(sources, at) { RankedEnds(sources, rank, sources[at].supersededBy.value, seen + {at}); }
  }

  ghost function MaxRank(rank: map<string, nat>, keys: set<string>): (m: nat)
    requires keys <= rank.Keys
    ensures forall k :: k in keys ==> rank[k] <= m
  {
    if keys == {} then 0
    else
      var k :| k in keys;
      var rest := MaxRank(rank, keys - {k});
      if rank[k] > rest then rank[k] else rest
  }

  lemma SupersedeOther(sources: Sources, o: string, n: string, id: string)
    requires o in sources && n in sources && o != n && id in sources && id != o && id != n
    ensures var next := SourceStep(sources, Supersede(o, n, false));
      next.Keys == sources.Keys && next[id] == sources[id] && (EndsAt(next, id) <==> EndsAt(sources, id))
  {
  }

  /** A superseding source becomes the end of its chain, so it may take the highest rank. */
  lemma SupersedeRanked(sources: Sources, rank: map<string, nat>, o: string, n: string)
    requires Ranked(sources, rank) && o in sources && n in sources && o != n
    ensures Ranked(SourceStep(sources, Supersede(o, n, false)), rank[n := MaxRank(rank, rank.Keys) + 1])
  {
    var next, rank' := SourceStep(sources, Supersede(o, n, false)), rank[n := MaxRank(rank, rank.Keys) + 1];
    forall id | id in next
      ensures next[id].id == id
      ensures !EndsAt(next, id) ==> rank'[id] < rank'[next[id].supersededBy.value]
    {
      if id != o && id != n { SupersedeOther(sources, o, n, id); }
    }
  }

  lemma AddRanked(sources: Sources, rank: map<string, nat>, source: Source)
    requires Ranked(sources, rank) && source.id !in sources && source.id != ""
    ensures Ranked(SourceStep(sources, Add(source)), rank[source.id := MaxRank(rank, rank.Keys) + 1])
  {
    var next, rank' := SourceStep(sources, Add(source)), rank[source.id := MaxRank(rank, rank.Keys) + 1];
    forall id | id in next && !EndsAt(next, id) ensures rank'[id] < rank'[next[id].supersededBy.value] {
      assert id in sources && (next[id].supersededBy.value in sources ==> !EndsAt(sources, id));
    }
  }

  lemma SourceStepRanked(sources: Sources, rank: map<string, nat>, op: SourceOp) returns (rank': map<string, nat>)
    requires Ranked(sources, rank) && FreshId(op)
    ensures Ranked(SourceStep(sources, op), rank')
  {
    rank' := rank;
    match op
    case Add(source) =>
      if source.id !in sources {
        AddRanked(sources, rank, source);
        rank' := rank[source.id := MaxRank(rank, rank.Keys) + 1];
      }
    case SetStatus(_, _) =>
    case Supersede(o, n, refused) =>
      if o in sources && n in sources && o != n && !refused {
        SupersedeRanked(sources, rank, o, n);
        rank' := rank[n := MaxRank(rank, rank.Keys) + 1];
      }
  }

  /** The pin would be moved to the end of its chain, and somebody marked that end superseded. */
  predicate HeadMarked(pin: Pin, sources: Sources) {
    Movable(pin, sources) && var head := ChainHead(sources, pin.sourceRef.value);
    head != pin.sourceRef.value && sources[head].status == SupersededSource
  }

  lemma RankedSettlesIff(sources: Sources, rank: map<string, nat>, pin: Pin)
    requires Ranked(sources, rank)
    ensures Settles(pin, sources) <==> !HeadMarked(pin, sources)
  {
    if Movable(pin, sources) {
      RankedEnds(sources, rank, pin.sourceRef.value, {});
      EndIsItsOwnHead(sources, ChainHead(sources, pin.sourceRef.value));
    }
  }

  lemma TwiceIsOnceIffSettled(pins: seq<Pin>, sources: Sources)
    requires ValidSources(sources)
    ensures ReconcileAll(ReconcileAll(pins, sources), sources) == ReconcileAll(pins, sources) <==>
            forall pin :: pin in pins ==> Settles(pin, sources)
  {
    var once := ReconcileAll(pins, sources);
    var twice := ReconcileAll(once, sources);
    forall i | 0 <= i < |pins| ensures twice[i] == once[i] <==> Settles(pins[i], sources) {
      SecondReconcileIdleIffSettles(pins[i], sources);
    }
  }

  /**
   Over every run of store writes, with or without the store's own cycle check, chains stay acyclic. So reconciling
   twice is reconciling once if and only if no pin is to be moved to a chain end that was marked superseded by hand.
   */
  lemma {:induction false} ReachableStoresSettleIff(
    sources: Sources, rank: map<string, nat>, ops: seq<SourceOp>, pins: seq<Pin>)
    requires Ranked(sources, rank) && forall op :: op in ops ==> FreshId(op)
    ensures var end := SourceRun(sources, ops);
      ReconcileAll(ReconcileAll(pins, end), end) == ReconcileAll(pins, end) <==>
      forall pin :: pin in pins ==> !HeadMarked(pin, end)
    decreases |ops|
  {
    if ops == [] {
      forall pin { RankedSettlesIff(sources, rank, pin); }
      TwiceIsOnceIffSettled(pins, sources);
    } else {
      var rank' := SourceStepRanked(sources, rank, ops[0]);
      ReachableStoresSettleIff(SourceStep(sources, ops[0]), rank', ops[1..], pins);
    }
  }

  // ----- supersession alone -----

  /** Nobody marks a source superseded by hand; only a supersession does. */
  predicate OnlySupersede(op: SourceOp) {
    (op.Add? ==> op.source.status != SupersededSource) && (op.SetStatus? ==> op.status != SupersededSource)
  }

  /** A superseded source has a stored successor. */
  ghost predicate MarkedHaveSuccessors(sources: Sources) {
    forall id :: id in sources && sources[id].status == SupersededSource ==> !EndsAt(sources, id)
  }

  lemma SourceStepMarked(sources: Sources, op: SourceOp)
    requires MarkedHaveSuccessors(sources) && "" !in sources && OnlySupersede(op)
    ensures MarkedHaveSuccessors(SourceStep(sources, op))
  {
    if op.Supersede? && op.older in sources && op.newer in sources && op.older != op.newer && !op.refused {
      var next := SourceStep(sources, op);
      forall id | id in next && next[id].status == SupersededSource ensures !EndsAt(next, id) {
        if id != op.older && id != op.newer { SupersedeOther(sources, op.older, op.newer, id); }
      }
    }
  }

  /** A run without marks by hand leaves a store in which every pin settles at once. */
  lemma {:induction false} SupersessionAloneSettles(
    sources: Sources, rank: map<string, nat>, ops: seq<SourceOp>, pins: seq<Pin>)
    requires Ranked(sources, rank) && MarkedHaveSuccessors(sources)
    requires forall op :: op in ops ==> FreshId(op) && OnlySupersede(op)
    ensures var end := SourceRun(sources, ops);
      ReconcileAll(ReconcileAll(pins, end), end) == ReconcileAll(pins, end)
    decreases |ops|
  {
    if ops == [] {
      forall id | id in sources
        ensures EndsAt(sources, ChainHead(sources, id)) && sources[ChainHead(sources, id)].status != SupersededSource
      {
        RankedEnds(sources, rank, id, {});
      }
      EndedChainsSettle(pins, sources);
    } else {
      var rank' := SourceStepRanked(sources, rank, ops[0]);
      SourceStepMarked(sources, ops[0]);
      SupersessionAloneSettles(SourceStep(sources, ops[0]), rank', ops[1..], pins);
    }
  }

  const FIRST := Source("S1", Current, None, None, None)
  const SECOND := Source("S2", Current, None, None, None)

  /** Two sources, one superseding the other, and the newer then marked superseded by hand. */
  const MARKED_BY_HAND: seq<SourceOp> :=
    [Add(FIRST), Add(SECOND), Supersede("S1", "S2", false), SetStatus("S2", SupersededSource)]

  lemma MarkedByHandStore()
    ensures SourceRun(map[], MARKED_BY_HAND) ==
            map["S1" := FIRST.(status := SupersededSource, supersededBy := Some("S2")),
                "S2" := SECOND.(status := SupersededSource)]
  {
    var ops := MARKED_BY_HAND;
    var s1 := SourceStep(map[], ops[0]);
    var s2 := SourceStep(s1, ops[1]);
    var s3 := SourceStep(s2, ops[2]);
    var s4 := SourceStep(s3, ops[3]);
    assert ops[1..] == [ops[1], ops[2], ops[3]] && ops[1..][1..] == [ops[2], ops[3]] && ops[1..][1..][1..] == [ops[3]];
    assert SourceRun(s3, [ops[3]]) == s4;
    assert SourceRun(s2, [ops[2], ops[3]]) == s4;
    assert SourceRun(s1, [ops[1], ops[2], ops[3]]) == s4;
  }

  /** In the store that run reaches, a second pass moves a pin on S1 from needing review to stale. */
  lemma HandMarkedHeadDoesNotSettle()
    ensures var sources := SourceRun(map[], MARKED_BY_HAND);
      var pin := Pin("K1", "key", "v", Some("S1"), Active);
      && ReconcileOne(pin, sources) == pin.(sourceRef := Some("S2"), status := NeedsReview)
      && ReconcileOne(ReconcileOne(pin, sources), sources) == pin.(sourceRef := Some("S2"), status := Stale)
  {
    MarkedByHandStore();
    var sources := SourceRun(map[], MARKED_BY_HAND);
    assert HeadFrom(sources, "S2", {"S1"}) == "S2";
    assert {} + {"S1"} == {"S1"};
    assert ChainHead(sources, "S1") == "S2";
    assert ChainHead(sources, "S2") == "S2";
  }
}
