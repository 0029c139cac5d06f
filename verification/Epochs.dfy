/** Whole runs: turn mutations, budget enforcement and rotations in any order, over any number of epochs. */
module Epochs {
  import opened Common
  import opened Compaction
  import opened LadderOrder
  import opened Conservation
  import opened Handoff

  datatype Op =
    | BeginTurn
    | SetObjective(objective: string)
    | SetSummary(text: string, hex: Option<string>)
    | SyncPins(live: seq<PinView>)
    | AddQuestion(id: string, text: string)
    | ResolveQuestion(qid: string)
    | NoteDecision(hexId: string, title: string, sourceRef: Option<string>)
    | TouchHex(ref: string)
    | AddHint(hint: string)
    | Enforce(env: Env)
    | Rotate(fallback: seq<string>, summaryHex: Option<string>, ceiling: int, meter: PacketMeter)

  datatype World = World(state: State, disk: Disk)

  // ----- turn mutations -----

  function Ordinary(ps: seq<PinView>): seq<PinView> {
    if ps == [] then []
    else if ps[0].critical then Ordinary(ps[1..])
    else [ps[0]] + Ordinary(ps[1..])
  }

  function Resolve(qs: seq<Question>, id: string): (r: seq<Question>)
    ensures |r| == |qs|
    ensures forall i {:trigger r[i]} :: 0 <= i < |qs| ==>
            r[i] == if qs[i].id == id then qs[i].(resolved := true) else qs[i]
  {
    seq(|qs|, i requires 0 <= i < |qs| => if qs[i].id == id then qs[i].(resolved := true) else qs[i])
  }

  function RemoveFirst(xs: seq<string>, x: string): (r: seq<string>)
    ensures forall y :: y in xs && y != x ==> y in r
  {
    if xs == [] then [] else if xs[0] == x then xs[1..] else [xs[0]] + RemoveFirst(xs[1..], x)
  }

  lemma {:induction false} RemoveAbsent(xs: seq<string>, x: string)
    requires x !in xs
    ensures RemoveFirst(xs, x) == xs
  {
    if xs != [] {
      RemoveAbsent(xs[1..], x);
      assert xs == [xs[0]] + xs[1..];
    }
  }

  /** Move to the newest end, adding it when absent. */
  function Touch(xs: seq<string>, x: string): seq<string> {
    RemoveFirst(xs, x) + [x]
  }

  /** `ys` is `xs` with `x` last: its first occurrence moved there, or it was added. */
  ghost predicate MovedToEnd(xs: seq<string>, x: string, ys: seq<string>) {
    || (x !in xs && ys == xs + [x])
    || exists i :: 0 <= i < |xs| && xs[i] == x && x !in xs[..i] && ys == xs[..i] + xs[i + 1..] + [x]
  }

  lemma {:induction false} RemoveFirstAt(xs: seq<string>, x: string, i: nat)
    requires i < |xs| && xs[i] == x && x !in xs[..i]
    ensures RemoveFirst(xs, x) == xs[..i] + xs[i + 1..]
  {
    if i > 0 {
      assert xs[0] == xs[..i][0] && xs[1..][..i - 1] == xs[..i][1..];
      RemoveFirstAt(xs[1..], x, i - 1);
      assert xs[1..][i..] == xs[i + 1..] && [xs[0]] + xs[1..][..i - 1] == xs[..i];
    }
  }

  lemma FirstPlace(xs: seq<string>, x: string) returns (i: nat)
    requires x in xs
    ensures i < |xs| && xs[i] == x && x !in xs[..i]
  {
    i := 0;
    while xs[i] != x
      invariant i < |xs| && x !in xs[..i] && x in xs[i..]
      decreases |xs| - i
    {
      assert xs[i..] == [xs[i]] + xs[i + 1..] && xs[..i + 1] == xs[..i] + [xs[i]];
      i := i + 1;
    }
  }

  lemma TouchMoves(xs: seq<string>, x: string)
    ensures MovedToEnd(xs, x, Touch(xs, x))
  {
    if x in xs {
      var i := FirstPlace(xs, x);
      RemoveFirstAt(xs, x, i);
    } else {
      RemoveAbsent(xs, x);
    }
  }

  lemma {:induction false} CriticalsSplit(ps: seq<PinView>)
    ensures multiset(Criticals(ps)) + multiset(Ordinary(ps)) == multiset(ps)
    ensures forall p :: p in Criticals(ps) ==> p.critical
    ensures forall p :: p in Ordinary(ps) ==> !p.critical
  {
    if ps != [] {
      CriticalsSplit(ps[1..]);
      assert ps == [ps[0]] + ps[1..];
    }
  }

  /** A sync keeps every live pin and puts the critical ones first. */
  lemma CriticalsFirst(ps: seq<PinView>)
    ensures var r := Criticals(ps) + Ordinary(ps);
      && multiset(r) == multiset(ps)
      && forall i, j :: 0 <= i < j < |r| && r[j].critical ==> r[i].critical
  {
    CriticalsSplit(ps);
    var a, r := Criticals(ps), Criticals(ps) + Ordinary(ps);
    forall j | |a| <= j < |r| ensures !r[j].critical {
      assert r[j] in Ordinary(ps);
    }
    forall i | 0 <= i < |a| ensures r[i].critical {
      assert r[i] in a;
    }
  }

  function Step(w: World, op: Op): World {
    var s := w.state;
    match op
    case BeginTurn => w.(state := s.(turn := s.turn + 1))
    case SetObjective(o) => w.(state := s.(objective := o))
    case SetSummary(text, hex) => w.(state := s.(summary := text, summaryHex := hex))
    case SyncPins(live) => w.(state := s.(pins := Criticals(live) + Ordinary(live)))
    case AddQuestion(id, text) => w.(state := s.(questions := s.questions + [Question(id, text, false)]))
    case ResolveQuestion(id) => w.(state := s.(questions := Resolve(s.questions, id)))
    case NoteDecision(hexId, title, source) =>
      w.(state := s.(decisions := s.decisions + [Decision(Some(hexId), source, Some(title))]))
    case TouchHex(ref) => w.(state := s.(hexRefs := Touch(s.hexRefs, ref)))
    case AddHint(hint) => w.(state := s.(hints := Touch(s.hints, hint)))
    case Enforce(env) => World(EnforceState(s, env), EnforceDisk(s, w.disk, env))
    case Rotate(fallback, summaryHex, ceiling, meter) =>
      w.(state := StateFromHandoff(Trimmed(BuildHandoff(s, fallback, summaryHex), ceiling, meter), s.epoch + 1))
  }

  function Run(w: World, ops: seq<Op>): World
    decreases |ops|
  {
    if ops == [] then w else Run(Step(w, ops[0]), ops[1..])
  }

  /** The three plain field writes of a turn. */
  lemma FieldWrites(w: World, text: string, hex: Option<string>)
    ensures var t := Step(w, BeginTurn).state; t.turn == w.state.turn + 1 && t == w.state.(turn := t.turn)
    ensures var t := Step(w, SetObjective(text)).state; t.objective == text && t == w.state.(objective := text)
    ensures var t := Step(w, SetSummary(text, hex)).state;
      t.summary == text && t.summaryHex == hex && t == w.state.(summary := text, summaryHex := hex)
  {
  }

  // ----- the irreducible core, as a machine of its own -----

  /** What compaction and rotation may never touch. */
  datatype Core = Core(mission: string, objective: string, criticals: seq<PinView>, openIds: seq<string>)

  function Ids(qs: seq<Question>): seq<string> {
    if qs == [] then [] else [qs[0].id] + Ids(qs[1..])
  }

  function CoreOf(s: State): Core {
    Core(s.mission, s.objective, Criticals(s.pins), Ids(Unresolved(s.questions)))
  }

  function Without(ids: seq<string>, id: string): seq<string> {
    if ids == [] then []
    else if ids[0] == id then Without(ids[1..], id)
    else [ids[0]] + Without(ids[1..], id)
  }

  /** The core moves only when the caller says so; budgets and rotations are no-ops on it. */
  function CoreStep(c: Core, op: Op): Core {
    match op
    case SetObjective(o) => c.(objective := o)
    case SyncPins(live) => c.(criticals := Criticals(live))
    case AddQuestion(id, _) => c.(openIds := c.openIds + [id])
    case ResolveQuestion(id) => c.(openIds := Without(c.openIds, id))
    case _ => c
  }

  function CoreRun(c: Core, ops: seq<Op>): Core
    decreases |ops|
  {
    if ops == [] then c else CoreRun(CoreStep(c, ops[0]), ops[1..])
  }

  // ----- filters -----

  lemma ConsConcat<T>(x: T, xs: seq<T>, ys: seq<T>)
    ensures [x] + (xs + ys) == ([x] + xs) + ys
  {
  }

  lemma {:induction false} CriticalsConcat(a: seq<PinView>, b: seq<PinView>)
    ensures Criticals(a + b) == Criticals(a) + Criticals(b)
  {
    if a == [] {
      assert a + b == b;
    } else {
      CriticalsConcat(a[1..], b);
      assert (a + b)[0] == a[0] && (a + b)[1..] == a[1..] + b;
      ConsConcat(a[0], Criticals(a[1..]), Criticals(b));
    }
  }

  lemma {:induction false} CriticalsIdempotent(ps: seq<PinView>)
    ensures Criticals(Criticals(ps)) == Criticals(ps)
    ensures Criticals(Ordinary(ps)) == []
  {
    if ps != [] {
      CriticalsIdempotent(ps[1..]);
      if ps[0].critical {
        assert Criticals(ps)[1..] == Criticals(ps[1..]);
        assert Ordinary(ps) == Ordinary(ps[1..]);
      } else {
        assert Ordinary(ps)[1..] == Ordinary(ps[1..]);
        assert Criticals(ps) == Criticals(ps[1..]);
      }
    }
  }

  lemma {:induction false} UnresolvedConcat(a: seq<Question>, b: seq<Question>)
    ensures Unresolved(a + b) == Unresolved(a) + Unresolved(b)
  {
    if a == [] {
      assert a + b == b;
    } else {
      UnresolvedConcat(a[1..], b);
      assert (a + b)[0] == a[0] && (a + b)[1..] == a[1..] + b;
      ConsConcat(a[0], Unresolved(a[1..]), Unresolved(b));
    }
  }

  lemma {:induction false} IdsConcat(a: seq<Question>, b: seq<Question>)
    ensures Ids(a + b) == Ids(a) + Ids(b)
  {
    if a == [] {
      assert a + b == b;
    } else {
      IdsConcat(a[1..], b);
      assert (a + b)[0] == a[0] && (a + b)[1..] == a[1..] + b;
      ConsConcat(a[0].id, Ids(a[1..]), Ids(b));
    }
  }

  lemma {:induction false} UnresolvedIdempotent(qs: seq<Question>)
    ensures Unresolved(Unresolved(qs)) == Unresolved(qs)
  {
    if qs != [] {
      UnresolvedIdempotent(qs[1..]);
      if qs[0].resolved {
        assert Unresolved(qs) == Unresolved(qs[1..]);
      } else {
        assert Unresolved(qs)[1..] == Unresolved(qs[1..]);
      }
    }
  }

  lemma IdsOfHead(qs: seq<Question>)
    requires qs != []
    ensures Ids(Unresolved(qs)) == (if qs[0].resolved then [] else [qs[0].id]) + Ids(Unresolved(qs[1..]))
  {
    if qs[0].resolved {
      assert Unresolved(qs) == Unresolved(qs[1..]);
    } else {
      assert Unresolved(qs)[1..] == Unresolved(qs[1..]);
    }
  }

  /** Resolving an id removes exactly that id from the open ones. */
  lemma {:induction false} ResolveIds(qs: seq<Question>, id: string)
    ensures Ids(Unresolved(Resolve(qs, id))) == Without(Ids(Unresolved(qs)), id)
  {
    if qs != [] {
      var rs := Resolve(qs, id);
      ResolveIds(qs[1..], id);
      assert rs[1..] == Resolve(qs[1..], id);
      IdsOfHead(qs);
      IdsOfHead(rs);
      var tail := Ids(Unresolved(qs[1..]));
      if qs[0].resolved {
        assert [] + tail == tail;
      } else {
        assert ([qs[0].id] + tail)[1..] == tail;
      }
    }
  }

  /** Compacting texts keeps every open id, in order. */
  lemma {:induction false} CompactIds(qs: seq<Question>)
    ensures Ids(Unresolved(CompactTexts(qs))) == Ids(Unresolved(qs))
  {
    if qs != [] {
      var cs := CompactTexts(qs);
      CompactIds(qs[1..]);
      assert cs[1..] == CompactTexts(qs[1..]);
      IdsOfHead(qs);
      IdsOfHead(cs);
    }
  }

  // ----- survival -----

  lemma RungCore(k: nat, s: State, env: Env)
    requires 1 <= k <= RUNGS
    ensures CoreOf(Rung(k, s, env)) == CoreOf(s)
  {
    match k
    case 1 => TrimHintsShortest(s, env);
    case 2 => TrimHexRefsShortest(s, env);
    case 3 => TrimDecisionsShortest(StripTitles(s, env), env);
    case 4 =>
    case 5 => UnresolvedIdempotent(s.questions);
    case 6 => CriticalsIdempotent(s.pins);
    case 7 => CompactIds(s.questions);
    case 8 =>
  }

  lemma {:induction false} StageCore(k: nat, s: State, env: Env)
    requires k <= RUNGS
    ensures CoreOf(Stage(k, s, env)) == CoreOf(s)
  {
    if k > 0 {
      StageCore(k - 1, s, env);
      RungCore(k, Stage(k - 1, s, env), env);
    }
  }

  lemma RotateCore(
    s: State, fallback: seq<string>, summaryHex: Option<string>, ceiling: int, meter: PacketMeter, epoch: int)
    ensures CoreOf(StateFromHandoff(Trimmed(BuildHandoff(s, fallback, summaryHex), ceiling, meter), epoch)) == CoreOf(s)
  {
    TrimmedShape(BuildHandoff(s, fallback, summaryHex), ceiling, meter);
    CriticalsIdempotent(s.pins);
    UnresolvedIdempotent(s.questions);
  }

  lemma SyncPinsCore(w: World, live: seq<PinView>)
    ensures CoreOf(Step(w, SyncPins(live)).state) == CoreStep(CoreOf(w.state), SyncPins(live))
  {
    CriticalsConcat(Criticals(live), Ordinary(live));
    CriticalsIdempotent(live);
  }

  lemma AddQuestionCore(w: World, id: string, text: string)
    ensures CoreOf(Step(w, AddQuestion(id, text)).state) == CoreStep(CoreOf(w.state), AddQuestion(id, text))
  {
    var q := [Question(id, text, false)];
    UnresolvedConcat(w.state.questions, q);
    assert q[1..] == [] && Unresolved(q) == q;
    IdsConcat(Unresolved(w.state.questions), q);
  }

  lemma ResolveQuestionCore(w: World, id: string)
    ensures CoreOf(Step(w, ResolveQuestion(id)).state) == CoreStep(CoreOf(w.state), ResolveQuestion(id))
  {
    ResolveIds(w.state.questions, id);
  }

  lemma EnforceCore(s: State, env: Env)
    ensures CoreOf(EnforceState(s, env)) == CoreOf(s)
  {
    StageCore(RUNGS, s, env);
  }

  lemma StepCore(w: World, op: Op)
    ensures CoreOf(Step(w, op).state) == CoreStep(CoreOf(w.state), op)
  {
    match op
    case SyncPins(live) => SyncPinsCore(w, live);
    case AddQuestion(id, text) => AddQuestionCore(w, id, text);
    case ResolveQuestion(id) => ResolveQuestionCore(w, id);
    case Enforce(env) => EnforceCore(w.state, env);
    case Rotate(fallback, summaryHex, ceiling, meter) =>
      RotateCore(w.state, fallback, summaryHex, ceiling, meter, w.state.epoch + 1);
    case _ =>
  }

  /**
   Epoch survival. Over every run, the mission, the objective, the critical pins (with values, in order) and the ids of
   the unresolved questions (in order) are exactly what a machine that ignores budgets and rotations would hold.
   */
  lemma {:induction false} EpochSurvival(w: World, ops: seq<Op>)
    ensures CoreOf(Run(w, ops).state) == CoreRun(CoreOf(w.state), ops)
    decreases |ops|
  {
    if ops != [] {
      StepCore(w, ops[0]);
      EpochSurvival(Step(w, ops[0]), ops[1..]);
    }
  }

  // ----- reachability over runs -----

  /** The run spills to one path only, and stays within one epoch. */
  ghost predicate InEpoch(ops: seq<Op>, path: string) {
    forall op :: op in ops ==> !op.Rotate? && (op.Enforce? && op.env.spill.Some? ==> op.env.spill.value == path)
  }

  lemma StepConserves(w: World, op: Op, path: string, a: Address)
    requires !op.Rotate? && (op.SyncPins? ==> a.kind != PinKind)
    requires op.Enforce? && op.env.spill.Some? ==> op.env.spill.value == path
    requires w.state.unloadedLedger.Some? ==> w.state.unloadedLedger.value == path
    requires Reachable(w.state, w.disk, a)
    ensures Reachable(Step(w, op).state, Step(w, op).disk, a)
    ensures Step(w, op).state.unloadedLedger.Some? ==> Step(w, op).state.unloadedLedger.value == path
  {
    var s, s' := w.state, Step(w, op).state;
    match op
    case Enforce(env) =>
      EnforceConserves(s, w.disk, env);
      StagePointer(RUNGS - 1, s, env);
    case ResolveQuestion(id) =>
      if a.kind == QuestionKind && Loaded(s, a) {
        var i :| 0 <= i < |s.questions| && s.questions[i].id == a.ref;
        assert s'.questions[i] in s'.questions;
      }
    case AddQuestion(_, _) =>
      if a.kind == QuestionKind && Loaded(s, a) {
        var q :| q in s.questions && q.id == a.ref;
        assert q in s'.questions;
      }
    case NoteDecision(_, _, _) =>
      if a.kind == DecisionKind && Loaded(s, a) {
        var d :| d in s.decisions && DecisionAddress(d) == Some(a.ref);
        assert d in s'.decisions;
      }
    case _ =>
  }

  /** In the in-state ledger or in the file it was spilled to. */
  ghost predicate Filed(s: State, disk: Disk, a: Address) {
    InLedger(s.dropped, a) || InPointedFile(s, disk, a)
  }

  /** What is in the pointed file is still there, and still pointed at. */
  lemma EnforceKeepsFile(s: State, disk: Disk, env: Env, a: Address)
    requires OnePath(s, env) && InPointedFile(s, disk, a)
    ensures EnforceState(s, env).unloadedLedger == s.unloadedLedger
    ensures InPointedFile(EnforceState(s, env), EnforceDisk(s, disk, env), a)
  {
    var last := Stage(RUNGS - 1, s, env);
    StagePointer(RUNGS - 1, s, env);
    SpillDiskGrows(last, disk, env, s.unloadedLedger.value, a);
  }

  lemma EnforceKeepsFiled(s: State, disk: Disk, env: Env, a: Address)
    requires OnePath(s, env) && Filed(s, disk, a)
    ensures Filed(EnforceState(s, env), EnforceDisk(s, disk, env), a)
  {
    if InPointedFile(s, disk, a) {
      EnforceKeepsFile(s, disk, env, a);
    } else if !Fits(s, env) && !Reverts(s, env) {
      var last := Stage(RUNGS - 1, s, env);
      StageLedgerGrows(RUNGS - 1, s, env, a);
      if Spills(last, env) {
        var name := env.spill.value;
        MergeLedgerElements(if name in disk then disk[name] else map[], last.dropped, a);
      }
    }
  }

  /** Within an epoch what is filed stays filed, whatever the turns do, pin syncs included. */
  lemma {:induction false} RunKeepsFiled(w: World, ops: seq<Op>, path: string, a: Address)
    requires InEpoch(ops, path)
    requires w.state.unloadedLedger.Some? ==> w.state.unloadedLedger.value == path
    requires Filed(w.state, w.disk, a)
    ensures Filed(Run(w, ops).state, Run(w, ops).disk, a)
    decreases |ops|
  {
    if ops != [] {
      StepKeepsFiled(w, ops[0], path, a);
      RunKeepsFiled(Step(w, ops[0]), ops[1..], path, a);
    }
  }

  lemma StepKeepsFiled(w: World, op: Op, path: string, a: Address)
    requires !op.Rotate? && (op.Enforce? && op.env.spill.Some? ==> op.env.spill.value == path)
    requires w.state.unloadedLedger.Some? ==> w.state.unloadedLedger.value == path
    requires Filed(w.state, w.disk, a)
    ensures Filed(Step(w, op).state, Step(w, op).disk, a)
    ensures Step(w, op).state.unloadedLedger.Some? ==> Step(w, op).state.unloadedLedger.value == path
  {
    if op.Enforce? {
      EnforceKeepsFiled(w.state, w.disk, op.env, a);
      StagePointer(RUNGS - 1, w.state, op.env);
    }
  }

  /**
   Within an epoch nothing becomes unreachable, whatever the turns do. A pin sync may change which pins there are, so a
   pin's id has to be filed to survive one.
   */
  lemma {:induction false} RunConserves(w: World, ops: seq<Op>, path: string, a: Address)
    requires InEpoch(ops, path)
    requires w.state.unloadedLedger.Some? ==> w.state.unloadedLedger.value == path
    requires a.kind == PinKind && !Filed(w.state, w.disk, a) ==> forall op :: op in ops ==> !op.SyncPins?
    requires Reachable(w.state, w.disk, a)
    ensures Reachable(Run(w, ops).state, Run(w, ops).disk, a)
    decreases |ops|
  {
    if Filed(w.state, w.disk, a) {
      RunKeepsFiled(w, ops, path, a);
    } else if ops != [] {
      StepConserves(w, ops[0], path, a);
      RunConserves(Step(w, ops[0]), ops[1..], path, a);
    }
  }

  /** Every spill of the run goes to one path; rotations are allowed. */
  ghost predicate OneSpillPath(ops: seq<Op>, path: string) {
    forall op :: op in ops ==> op.Enforce? && op.env.spill.Some? ==> op.env.spill.value == path
  }

  /** Across any number of epochs: what is in the pointed file is in it, and pointed at, after every run. */
  lemma {:induction false} FileOutlivesEpochs(w: World, ops: seq<Op>, path: string, a: Address)
    requires OneSpillPath(ops, path) && w.state.unloadedLedger == Some(path) && InPointedFile(w.state, w.disk, a)
    ensures Run(w, ops).state.unloadedLedger == Some(path)
    ensures InPointedFile(Run(w, ops).state, Run(w, ops).disk, a) && Reachable(Run(w, ops).state, Run(w, ops).disk, a)
    decreases |ops|
  {
    if ops != [] {
      var op := ops[0];
      if op.Enforce? {
        EnforceKeepsFile(w.state, w.disk, op.env, a);
      } else if op.Rotate? {
        TrimmedShape(BuildHandoff(w.state, op.fallback, op.summaryHex), op.ceiling, op.meter);
      }
      FileOutlivesEpochs(Step(w, op), ops[1..], path, a);
    }
  }

  // ----- what crosses an epoch boundary -----

  ghost predicate PacketHolds(p: Packet, a: Address) {
    match a.kind
    case HexKind => a.ref in p.hexRefs
    case DecisionKind => exists d :: d in p.decisions && DecisionAddress(d) == Some(a.ref)
    case QuestionKind => exists q :: q in p.questions && q.id == a.ref
    case PinKind => a.ref in p.pinRefs || exists q :: q in p.criticalPins && q.pinId == a.ref
    case SummaryKind => false
  }

  ghost predicate FileHolds(p: Packet, disk: Disk, a: Address) {
    p.unloadedLedger.Some? && p.unloadedLedger.value in disk && InLedger(disk[p.unloadedLedger.value], a)
  }

  /** A seeded epoch reaches exactly what the packet holds and what the carried pointer's file holds. */
  lemma SeedReaches(p: Packet, disk: Disk, epoch: int, a: Address)
    ensures Reachable(StateFromHandoff(p, epoch), disk, a) <==> PacketHolds(p, a) || FileHolds(p, disk, a)
  {
    DropAllElements(map[], PinKind, p.pinRefs, a);
  }

  /**
   What a handoff that retains `k` hex refs and `m` decisions carries, read off the state before it: the newest `k`
   refs, the newest `m` decisions, every unresolved question and every pin.
   */
  ghost predicate Carried(s: State, fallback: seq<string>, k: nat, m: nat, a: Address) {
    match a.kind
    case HexKind => a.ref in Newest(SourceRefs(s, fallback), k)
    case DecisionKind => exists d :: d in Newest(s.decisions, m) && DecisionAddress(d) == Some(a.ref)
    case QuestionKind => exists q :: q in s.questions && !q.resolved && q.id == a.ref
    case PinKind => exists p :: p in s.pins && p.pinId == a.ref
    case SummaryKind => false
  }

  lemma NewestUntitled(ds: seq<Decision>, m: nat, ref: string)
    ensures (exists d :: d in Newest(Untitled(ds), m) && DecisionAddress(d) == Some(ref)) <==>
            (exists d :: d in Newest(ds, m) && DecisionAddress(d) == Some(ref))
  {
    var xs, ys := Newest(Untitled(ds), m), Newest(ds, m);
    assert |xs| == |ys| && forall i :: 0 <= i < |xs| ==> xs[i] == ys[i].(title := None);
    if i :| 0 <= i < |xs| && DecisionAddress(xs[i]) == Some(ref) {
      assert ys[i] in ys && DecisionAddress(ys[i]) == Some(ref);
    }
    if i :| 0 <= i < |ys| && DecisionAddress(ys[i]) == Some(ref) {
      assert xs[i] in xs && DecisionAddress(xs[i]) == Some(ref);
    }
  }

  lemma PacketPins(s: State, id: string)
    ensures (id in OrdinaryIds(s.pins) || exists p :: p in Criticals(s.pins) && p.pinId == id) <==>
            exists p :: p in s.pins && p.pinId == id
  {
    CriticalsElements(s.pins);
    if id in OrdinaryIds(s.pins) { OrdinaryIdsHave(s.pins, id); }
    if p :| p in s.pins && p.pinId == id {
      if p.critical { assert p in Criticals(s.pins); }
    }
  }

  lemma PacketHoldsCarried(
    s: State, fallback: seq<string>, summaryHex: Option<string>, ceiling: int, meter: PacketMeter, a: Address)
    ensures var p := Trimmed(BuildHandoff(s, fallback, summaryHex), ceiling, meter);
      PacketHolds(p, a) <==> Carried(s, fallback, |p.hexRefs|, |p.decisions|, a)
  {
    var p := Trimmed(BuildHandoff(s, fallback, summaryHex), ceiling, meter);
    TrimmedShape(BuildHandoff(s, fallback, summaryHex), ceiling, meter);
    HandoffCounts(s, fallback, summaryHex, ceiling, meter);
    match a.kind
    case HexKind =>
    case DecisionKind => NewestUntitled(s.decisions, |p.decisions|, a.ref);
    case QuestionKind => UnresolvedElements(s.questions);
    case PinKind => PacketPins(s, a.ref);
    case SummaryKind =>
  }

  /** A handoff carries the pointer as it is. */
  lemma PointerCarried(s: State, fallback: seq<string>, summaryHex: Option<string>, ceiling: int, meter: PacketMeter)
    ensures Trimmed(BuildHandoff(s, fallback, summaryHex), ceiling, meter).unloadedLedger == s.unloadedLedger
  {
    TrimmedShape(BuildHandoff(s, fallback, summaryHex), ceiling, meter);
  }

  /** What a packet and its pointed file reach, in terms of the state it was built from. */
  lemma PacketReaches(s: State, disk: Disk, p: Packet, a: Address, carried: bool)
    requires p.unloadedLedger == s.unloadedLedger && (PacketHolds(p, a) <==> carried)
    ensures Reachable(StateFromHandoff(p, s.epoch + 1), disk, a) <==> carried || InPointedFile(s, disk, a)
  {
    SeedReaches(p, disk, s.epoch + 1, a);
  }

  /** Across a rotation, exactly what the handoff carries and what the spilled file holds stays reachable. */
  lemma RotationReaches(w: World, op: Op, a: Address)
    requires op.Rotate?
    ensures var p := Trimmed(BuildHandoff(w.state, op.fallback, op.summaryHex), op.ceiling, op.meter);
      Reachable(Step(w, op).state, w.disk, a) <==>
      Carried(w.state, op.fallback, |p.hexRefs|, |p.decisions|, a) || InPointedFile(w.state, w.disk, a)
  {
    var s, p := w.state, Trimmed(BuildHandoff(w.state, op.fallback, op.summaryHex), op.ceiling, op.meter);
    PointerCarried(s, op.fallback, op.summaryHex, op.ceiling, op.meter);
    PacketHoldsCarried(s, op.fallback, op.summaryHex, op.ceiling, op.meter, a);
    PacketReaches(s, w.disk, p, a, Carried(s, op.fallback, |p.hexRefs|, |p.decisions|, a));
    RotatedState(w, op);
  }

  lemma RotatedState(w: World, op: Op)
    requires op.Rotate?
    ensures var p := Trimmed(BuildHandoff(w.state, op.fallback, op.summaryHex), op.ceiling, op.meter);
      Step(w, op) == World(StateFromHandoff(p, w.state.epoch + 1), w.disk)
  {
  }

  /** Carried however tight the ceiling is: a loaded pin, or an unresolved question. */
  ghost predicate AlwaysCarried(s: State, a: Address) {
    || (a.kind == PinKind && exists p :: p in s.pins && p.pinId == a.ref)
    || (a.kind == QuestionKind && exists q :: q in s.questions && !q.resolved && q.id == a.ref)
  }

  /** Whatever the meter says, a ceiling it never goes below sheds every ref and every decision. */
  lemma TightCeilingShedsAll(p: Packet)
    ensures Trimmed(p, 0, (_: Packet) => 0).hexRefs == [] && Trimmed(p, 0, (_: Packet) => 0).decisions == []
  {
    TrimmedIsShortest(p, 0, (_: Packet) => 0);
  }

  /**
   An address survives a rotation under every ceiling and every meter if and only if, before it, the address is in the
   pointed file, or it is a loaded pin's id, or an unresolved question's.
   */
  lemma SurvivesEveryRotationIff(w: World, fallback: seq<string>, summaryHex: Option<string>, a: Address)
    ensures (forall ceiling, meter ::
               Reachable(Step(w, Rotate(fallback, summaryHex, ceiling, meter)).state, w.disk, a)) <==>
            AlwaysCarried(w.state, a) || InPointedFile(w.state, w.disk, a)
  {
    if AlwaysCarried(w.state, a) || InPointedFile(w.state, w.disk, a) {
      forall ceiling, meter ensures Reachable(Step(w, Rotate(fallback, summaryHex, ceiling, meter)).state, w.disk, a) {
        RotationReaches(w, Rotate(fallback, summaryHex, ceiling, meter), a);
      }
    } else {
      var tight := Rotate(fallback, summaryHex, 0, (_: Packet) => 0);
      TightCeilingShedsAll(BuildHandoff(w.state, fallback, summaryHex));
      RotationReaches(w, tight, a);
      assert !Reachable(Step(w, tight).state, w.disk, a);
    }
  }

  /**
   A handoff does not carry the in-state ledger. Its addresses all survive every rotation if and only if each of them
   is in the pointed file, a loaded pin's id, or an unresolved question's: an unspilled hex ref or decision never is.
   */
  lemma LedgerCrossesEpoch(w: World, fallback: seq<string>, summaryHex: Option<string>)
    ensures
      (forall a, ceiling, meter :: InLedger(w.state.dropped, a) ==>
         Reachable(Step(w, Rotate(fallback, summaryHex, ceiling, meter)).state, w.disk, a)) <==>
      (forall a :: InLedger(w.state.dropped, a) ==> AlwaysCarried(w.state, a) || InPointedFile(w.state, w.disk, a))
  {
    forall a { SurvivesEveryRotationIff(w, fallback, summaryHex, a); }
  }

  /**
   A call that ended by spilling, followed by any rotation: every address the ledger or its file held is reachable.
   */
  lemma SpilledEpochCrosses(w: World, env: Env, op: Op, a: Address)
    requires op.Rotate? && OnePath(w.state, env)
    requires !Fits(w.state, env) && !Reverts(w.state, env) && Spills(Stage(RUNGS - 1, w.state, env), env)
    requires InLedger(w.state.dropped, a) || InPointedFile(w.state, w.disk, a)
    ensures var spilled := Step(w, Enforce(env)); Reachable(Step(spilled, op).state, Step(spilled, op).disk, a)
  {
    var s, last, name := w.state, Stage(RUNGS - 1, w.state, env), env.spill.value;
    var spilled := Step(w, Enforce(env));
    StagePointer(RUNGS - 1, s, env);
    if InLedger(s.dropped, a) { StageLedgerGrows(RUNGS - 1, s, env, a); }
    MergeLedgerElements(if name in w.disk then w.disk[name] else map[], last.dropped, a);
    assert InPointedFile(spilled.state, spilled.disk, a);
    RotationReaches(spilled, op, a);
  }

  /** Without a spill a rotation can lose an address: one unloaded hex ref, no file, an otherwise empty state. */
  lemma UnspilledLedgerIsLost(meter: PacketMeter)
    ensures var s := State(1, 0, "", "", "", [], [], [], [], [], map[HexKind := ["P1.E1.H001"]], None, None, false);
      var w := World(s, map[]);
      var a := Address(HexKind, "P1.E1.H001");
      Reachable(s, map[], a) && !Reachable(Step(w, Rotate([], None, 0, meter)).state, map[], a)
  {
    var s := State(1, 0, "", "", "", [], [], [], [], [], map[HexKind := ["P1.E1.H001"]], None, None, false);
    var a := Address(HexKind, "P1.E1.H001");
    var p0 := BuildHandoff(s, [], None);
    TrimmedShape(p0, 0, meter);
    SeedReaches(Trimmed(p0, 0, meter), map[], 2, a);
  }
}
