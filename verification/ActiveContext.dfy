/** The working set as the mutable object it is, compacted in place; each method is tied to the value-level ladder. */
module ActiveContext {
  import opened Common
  import opened Compaction
  import opened Conservation
  import opened Metering
  import Epochs
  import opened Handoff

  /** The project's ledger files. */
  class LedgerFiles {
    var files: Disk

    constructor ()
      ensures files == map[]
    {
      files := map[];
    }
  }

  /** One turn mutation on the value side. */
  ghost function Turn(s: State, op: Epochs.Op): State {
    Epochs.Step(Epochs.World(s, map[]), op).state
  }

  class ActiveState {
    var epoch: int
    var turn: int
    var mission: string
    var objective: string
    var summary: string
    var pins: seq<PinView>
    var questions: seq<Question>
    var hexRefs: seq<string>
    var decisions: seq<Decision>
    var hints: seq<string>
    var dropped: Ledger
    var unloadedLedger: Option<string>
    var summaryHex: Option<string>
    var overBudget: bool

    function ToDict(): State
      reads this
    {
      State(epoch, turn, mission, objective, summary, pins, questions, hexRefs, decisions, hints,
            dropped, unloadedLedger, summaryHex, overBudget)
    }

    /** Seed from a value: what loading a file and seeding from a handoff both do. */
    constructor FromDict(d: State)
      ensures ToDict() == d
    {
      epoch, turn, mission, objective, summary := d.epoch, d.turn, d.mission, d.objective, d.summary;
      pins, questions, hexRefs, decisions, hints := d.pins, d.questions, d.hexRefs, d.decisions, d.hints;
      dropped, unloadedLedger, summaryHex, overBudget := d.dropped, d.unloadedLedger, d.summaryHex, d.overBudget;
    }

    /** Put the state back to a snapshot. */
    method Restore(d: State)
      modifies this
      ensures ToDict() == d
    {
      RestoreScalars(d);
      RestoreLists(d);
    }

    method RestoreScalars(d: State)
      modifies this`epoch, this`turn, this`mission, this`objective, this`summary,
               this`unloadedLedger, this`summaryHex, this`overBudget
      ensures epoch == d.epoch && turn == d.turn && mission == d.mission && objective == d.objective
      ensures summary == d.summary && unloadedLedger == d.unloadedLedger
      ensures summaryHex == d.summaryHex && overBudget == d.overBudget
    {
      epoch, turn, mission, objective := d.epoch, d.turn, d.mission, d.objective;
      summary, unloadedLedger, summaryHex, overBudget := d.summary, d.unloadedLedger, d.summaryHex, d.overBudget;
    }

    method RestoreLists(d: State)
      modifies this`pins, this`questions, this`hexRefs, this`decisions, this`hints, this`dropped
      ensures pins == d.pins && questions == d.questions && hexRefs == d.hexRefs
      ensures decisions == d.decisions && hints == d.hints && dropped == d.dropped
    {
      pins, questions, hexRefs := d.pins, d.questions, d.hexRefs;
      decisions, hints, dropped := d.decisions, d.hints, d.dropped;
    }

    /** `_drop`. */
    method DropRef(kind: Kind, ref: Option<string>)
      modifies this`dropped
      ensures dropped == Drop(old(dropped), kind, ref)
      ensures ref.None? ==> dropped == old(dropped)
      ensures ref.Some? ==>
                var bucket := if kind in old(dropped) then old(dropped)[kind] else [];
                dropped == old(dropped)[kind := if ref.value in bucket then bucket else bucket + [ref.value]]
    {
      if ref.None? {
        return;
      }
      var bucket := if kind in dropped then dropped[kind] else [];
      if ref.value !in bucket {
        bucket := bucket + [ref.value];
      }
      dropped := dropped[kind := bucket];
    }

    // ----- turn mutations -----

    method AddQuestion(id: string, text: string)
      modifies this`questions
      ensures ToDict() == Turn(old(ToDict()), Epochs.AddQuestion(id, text))
      ensures questions == old(questions) + [Question(id, text, false)]
    {
      questions := questions + [Question(id, text, false)];
    }

    method ResolveQuestion(id: string)
      modifies this`questions
      ensures ToDict() == Turn(old(ToDict()), Epochs.ResolveQuestion(id))
      ensures |questions| == |old(questions)|
      ensures forall i :: 0 <= i < |questions| ==>
                questions[i].id == old(questions)[i].id && questions[i].text == old(questions)[i].text &&
                (questions[i].resolved <==> old(questions)[i].resolved || old(questions)[i].id == id)
    {
      for i := 0 to |questions|
        invariant |questions| == |old(questions)|
        invariant questions[i..] == old(questions)[i..]
        invariant questions[..i] == Epochs.Resolve(old(questions), id)[..i]
      {
        if questions[i].id == id {
          questions := questions[i := questions[i].(resolved := true)];
        }
      }
      assert questions == Epochs.Resolve(old(questions), id);
    }

    /** Refresh the embedded views, criticals first. */
    method SyncPins(live: seq<PinView>)
      modifies this`pins
      ensures ToDict() == Turn(old(ToDict()), Epochs.SyncPins(live))
      ensures multiset(pins) == multiset(live)
      ensures forall i, j :: 0 <= i < j < |pins| && pins[j].critical ==> pins[i].critical
    {
      pins := Criticals(live) + Epochs.Ordinary(live);
      Epochs.CriticalsFirst(live);
    }

    method NoteDecision(hexId: string, title: string, sourceRef: Option<string>)
      modifies this`decisions
      ensures ToDict() == Turn(old(ToDict()), Epochs.NoteDecision(hexId, title, sourceRef))
      ensures decisions == old(decisions) + [Decision(Some(hexId), sourceRef, Some(title))]
    {
      decisions := decisions + [Decision(Some(hexId), sourceRef, Some(title))];
    }

    /** Move a ref to the newest end, adding it when absent. */
    method TouchHex(ref: string)
      modifies this`hexRefs
      ensures ToDict() == Turn(old(ToDict()), Epochs.TouchHex(ref))
      ensures Epochs.MovedToEnd(old(hexRefs), ref, hexRefs)
    {
      if ref in hexRefs {
        hexRefs := Epochs.RemoveFirst(hexRefs, ref);
      } else {
        Epochs.RemoveAbsent(hexRefs, ref);
      }
      hexRefs := hexRefs + [ref];
      Epochs.TouchMoves(old(hexRefs), ref);
    }

    method AddHint(hint: string)
      modifies this`hints
      ensures ToDict() == Turn(old(ToDict()), Epochs.AddHint(hint))
      ensures Epochs.MovedToEnd(old(hints), hint, hints)
    {
      if hint in hints {
        hints := Epochs.RemoveFirst(hints, hint);
      } else {
        Epochs.RemoveAbsent(hints, hint);
      }
      hints := hints + [hint];
      Epochs.TouchMoves(old(hints), hint);
    }

    // ----- the rungs, in place -----

    method TrimHintsInPlace(env: Env)
      modifies this`hints
      ensures ToDict() == TrimHints(old(ToDict()), env)
    {
      while hints != [] && env.meter(ToDict()) > env.budget
        invariant TrimHints(ToDict(), env) == TrimHints(old(ToDict()), env)
        decreases |hints|
      {
        hints := hints[1..];
      }
    }

    method TrimHexRefsInPlace(env: Env)
      modifies this`hexRefs, this`dropped
      ensures ToDict() == TrimHexRefs(old(ToDict()), env)
    {
      while hexRefs != [] && env.meter(ToDict()) > env.budget
        invariant TrimHexRefs(ToDict(), env) == TrimHexRefs(old(ToDict()), env)
        decreases |hexRefs|
      {
        var ref := hexRefs[0];
        hexRefs := hexRefs[1..];
        DropRef(HexKind, Some(ref));
      }
    }

    method StripTitlesInPlace(env: Env)
      modifies this`decisions
      ensures ToDict() == StripTitles(old(ToDict()), env)
    {
      if env.meter(ToDict()) > env.budget && exists d :: d in decisions && d.title.Some? {
        for i := 0 to |decisions|
          invariant |decisions| == |old(decisions)|
          invariant decisions[i..] == old(decisions)[i..]
          invariant decisions[..i] == Untitled(old(decisions))[..i]
        {
          decisions := decisions[i := decisions[i].(title := None)];
        }
      }
    }

    method TrimDecisionsInPlace(env: Env)
      modifies this`decisions, this`dropped
      ensures ToDict() == TrimDecisions(old(ToDict()), env)
    {
      while decisions != [] && env.meter(ToDict()) > env.budget
        invariant TrimDecisions(ToDict(), env) == TrimDecisions(old(ToDict()), env)
        decreases |decisions|
      {
        var d := decisions[0];
        decisions := decisions[1..];
        DropRef(DecisionKind, DecisionAddress(d));
      }
    }

    method CompactSummaryInPlace(env: Env)
      modifies this`summary, this`dropped
      ensures ToDict() == UnloadSummary(HeadSummary(old(ToDict()), env), env)
    {
      if env.meter(ToDict()) > env.budget && |summary| > SUMMARY_HEAD_CHARS {
        if HasPointer(env) {
          summary := RStrip(summary[..SUMMARY_HEAD_CHARS]) + ELLIPSIS;
          DropRef(SummaryKind, env.pointer);
        }
      }
      if env.meter(ToDict()) > env.budget && summary != "" && HasPointer(env) {
        summary := "";
        DropRef(SummaryKind, env.pointer);
      }
    }

    /** File every resolved question's id; hand back the unresolved ones. */
    method FileResolved() returns (keep: seq<Question>)
      modifies this`dropped
      ensures keep == Unresolved(questions)
      ensures dropped == DropAll(old(dropped), QuestionKind, ResolvedIds(questions))
    {
      keep := [];
      var i := 0;
      while i < |questions|
        invariant 0 <= i <= |questions|
        invariant keep + Unresolved(questions[i..]) == Unresolved(questions)
        invariant DropAll(dropped, QuestionKind, ResolvedIds(questions[i..])) ==
                  DropAll(old(dropped), QuestionKind, ResolvedIds(questions))
      {
        var q := questions[i];
        UnresolvedAt(questions, i);
        if q.resolved {
          DropAllCons(dropped, QuestionKind, q.id, ResolvedIds(questions[i + 1..]));
          DropRef(QuestionKind, Some(q.id));
        } else {
          SnocConcat(keep, q, Unresolved(questions[i + 1..]));
          keep := keep + [q];
        }
        i := i + 1;
      }
    }

    method UnloadResolvedInPlace(env: Env)
      modifies this`questions, this`dropped
      ensures ToDict() == UnloadResolved(old(ToDict()), env)
    {
      if env.meter(ToDict()) > env.budget && exists q :: q in questions && q.resolved {
        var keep := FileResolved();
        questions := keep;
      }
    }

    /** File every non-critical pin's id; hand back the critical ones. */
    method FileOrdinary() returns (keep: seq<PinView>)
      modifies this`dropped
      ensures keep == Criticals(pins)
      ensures dropped == DropAll(old(dropped), PinKind, OrdinaryIds(pins))
    {
      keep := [];
      var i := 0;
      while i < |pins|
        invariant 0 <= i <= |pins|
        invariant keep + Criticals(pins[i..]) == Criticals(pins)
        invariant DropAll(dropped, PinKind, OrdinaryIds(pins[i..])) == DropAll(old(dropped), PinKind, OrdinaryIds(pins))
      {
        var p := pins[i];
        CriticalsAt(pins, i);
        if p.critical {
          SnocConcat(keep, p, Criticals(pins[i + 1..]));
          keep := keep + [p];
        } else {
          DropAllCons(dropped, PinKind, p.pinId, OrdinaryIds(pins[i + 1..]));
          DropRef(PinKind, Some(p.pinId));
        }
        i := i + 1;
      }
    }

    method UnloadPinsInPlace(env: Env)
      modifies this`pins, this`dropped
      ensures ToDict() == UnloadPins(old(ToDict()), env)
    {
      if env.meter(ToDict()) > env.budget && exists p :: p in pins && !p.critical {
        var keep := FileOrdinary();
        pins := keep;
      }
    }

    method CompactQuestionsInPlace(env: Env)
      modifies this`questions
      ensures ToDict() == CompactQuestions(old(ToDict()), env)
    {
      if env.meter(ToDict()) > env.budget && exists q :: q in questions && |q.text| > QUESTION_HEAD_CHARS {
        for i := 0 to |questions|
          invariant |questions| == |old(questions)|
          invariant questions[i..] == old(questions)[i..]
          invariant questions[..i] == CompactTexts(old(questions))[..i]
        {
          if |questions[i].text| > QUESTION_HEAD_CHARS {
            var head := RStrip(questions[i].text[..QUESTION_HEAD_CHARS]);
            questions := questions[i := questions[i].(text := head + ELLIPSIS)];
          }
        }
      }
    }
  }

  /** One bucket of the merged file. */
  method MergeBucket(prior: seq<string>, refs: seq<string>) returns (bucket: seq<string>)
    ensures bucket == AppendNew(prior, refs)
    ensures forall r :: r in bucket <==> r in prior || r in refs
    ensures prior <= bucket
  {
    bucket := prior;
    var i := 0;
    while i < |refs|
      invariant 0 <= i <= |refs|
      invariant AppendNew(bucket, refs[i..]) == AppendNew(prior, refs) && prior <= bucket
    {
      assert refs[i..][1..] == refs[i + 1..];
      if refs[i] !in bucket {
        bucket := bucket + [refs[i]];
      }
      i := i + 1;
    }
    AppendNewElements(prior, refs);
  }

  /** Merge two ledgers kind by kind; the order in which kinds are visited does not matter. */
  method MergeFiles(prior: Ledger, added: Ledger) returns (merged: Ledger)
    ensures merged == MergeLedger(prior, added)
  {
    merged := prior;
    var todo := added.Keys;
    while todo != {}
      invariant todo <= added.Keys
      invariant merged.Keys == prior.Keys + (added.Keys - todo)
      invariant forall k :: k in merged ==>
        merged[k] == AppendNew(Bucket(prior, k), if k in todo then [] else Bucket(added, k))
      decreases todo
    {
      var kind :| kind in todo;
      var bucket := MergeBucket(Bucket(merged, kind), added[kind]);
      merged := merged[kind := bucket];
      todo := todo - {kind};
    }
  }

  /** Move the in-state ledger to its file, merging with any prior one. */
  method SpillLedger(state: ActiveState, disk: LedgerFiles, name: string)
    modifies state`dropped, disk
    ensures state.dropped == map[]
    ensures disk.files == old(disk.files)[name :=
              MergeLedger(if name in old(disk.files) then old(disk.files)[name] else map[], old(state.dropped))]
  {
    var prior := if name in disk.files then disk.files[name] else map[];
    var merged := MergeFiles(prior, state.dropped);
    disk.files := disk.files[name := merged];
    state.dropped := map[];
  }

  /** Compact the state in place until it fits, or report that it cannot. */
  method EnforceBudget(state: ActiveState, disk: LedgerFiles, env: Env) returns (report: Report)
    modifies state, disk
    ensures state.ToDict() == EnforceState(old(state.ToDict()), env)
    ensures disk.files == EnforceDisk(old(state.ToDict()), old(disk.files), env)
    ensures report == EnforceReport(old(state.ToDict()), env)
    ensures OnePath(old(state.ToDict()), env) ==>
              Keeps(old(state.ToDict()), old(disk.files), state.ToDict(), disk.files)
    ensures report.after <= report.before
  {
    var snapshot := state.ToDict();
    var before := env.meter(state.ToDict());
    ghost var disk0 := disk.files;
    if OnePath(snapshot, env) { EnforceConserves(snapshot, disk0, env); }
    CompactionNeverCosts(snapshot, env);
    if before <= env.budget {
      state.overBudget := false;
      return Report(env.budget, before, before, false, false);
    }
    RunLadder(state, disk, env);
    CompactedIsStage(snapshot, env);
    var after := env.meter(state.ToDict());
    var reverted := false;
    if after > before {
      state.Restore(snapshot);
      after := env.meter(state.ToDict());
      reverted := true;
    }
    state.overBudget := after > env.budget;
    report := Report(env.budget, before, after, after > env.budget, reverted);
  }

  /** The first seven rungs, written out. */
  ghost function Compacted(s: State, env: Env): State {
    var address := TrimDecisions(StripTitles(TrimHexRefs(TrimHints(s, env), env), env), env);
    var summarised := UnloadSummary(HeadSummary(address, env), env);
    CompactQuestions(UnloadPins(UnloadResolved(summarised, env), env), env)
  }

  lemma CompactedIsStage(s: State, env: Env)
    ensures Compacted(s, env) == Stage(RUNGS - 1, s, env)
    ensures SpillState(Compacted(s, env), env) == Stage(RUNGS, s, env)
  {
    assert Stage(1, s, env) == TrimHints(s, env);
    assert Stage(2, s, env) == TrimHexRefs(Stage(1, s, env), env);
    assert Stage(3, s, env) == TrimDecisions(StripTitles(Stage(2, s, env), env), env);
    assert Stage(4, s, env) == UnloadSummary(HeadSummary(Stage(3, s, env), env), env);
    assert Stage(5, s, env) == UnloadResolved(Stage(4, s, env), env);
    assert Stage(6, s, env) == UnloadPins(Stage(5, s, env), env);
  }

  /** The eight rungs in order. */
  method RunLadder(state: ActiveState, disk: LedgerFiles, env: Env)
    modifies state, disk
    ensures state.ToDict() == SpillState(Compacted(old(state.ToDict()), env), env)
    ensures disk.files == SpillDisk(Compacted(old(state.ToDict()), env), old(disk.files), env)
  {
    state.TrimHintsInPlace(env);
    state.TrimHexRefsInPlace(env);
    state.StripTitlesInPlace(env);
    state.TrimDecisionsInPlace(env);
    state.CompactSummaryInPlace(env);
    state.UnloadResolvedInPlace(env);
    state.UnloadPinsInPlace(env);
    state.CompactQuestionsInPlace(env);
    SpillInPlace(state, disk, env);
  }

  method SpillInPlace(state: ActiveState, disk: LedgerFiles, env: Env)
    modifies state`dropped, state`unloadedLedger, disk
    ensures state.ToDict() == SpillState(old(state.ToDict()), env)
    ensures disk.files == SpillDisk(old(state.ToDict()), old(disk.files), env)
  {
    if env.meter(state.ToDict()) > env.budget && state.dropped != map[] && env.spill.Some? {
      SpillLedger(state, disk, env.spill.value);
      state.unloadedLedger := env.spill;
    }
  }

  /** Build, trim and seed: the next epoch's object, from the packet alone. */
  method RotateEpoch(
    state: ActiveState, fallback: seq<string>, summaryHex: Option<string>, ceiling: int, meter: PacketMeter)
    returns (next: ActiveState, handoff: Packet)
    ensures IsShortestTrim(BuildHandoff(state.ToDict(), fallback, summaryHex), ceiling, meter, handoff)
    ensures fresh(next) && next.ToDict() == StateFromHandoff(handoff, state.epoch + 1)
    ensures Epochs.CoreOf(next.ToDict()) == Epochs.CoreOf(state.ToDict())
    ensures Succeeds(state.ToDict(), fallback, summaryHex, next.ToDict())
  {
    var packet := BuildHandoff(state.ToDict(), fallback, summaryHex);
    handoff := TrimHandoff(packet, ceiling, meter);
    next := new ActiveState.FromDict(StateFromHandoff(handoff, state.epoch + 1));
    Epochs.RotateCore(state.ToDict(), fallback, summaryHex, ceiling, meter, state.epoch + 1);
    SeedSucceeds(state.ToDict(), fallback, summaryHex, ceiling, meter);
  }
}
