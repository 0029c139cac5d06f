/** "Unloaded, never unreachable": what every rung, and the whole ladder with its revert, keeps addressable. */
module Conservation {
  import opened Common
  import opened Compaction
  import opened LadderOrder

  datatype Address = Address(kind: Kind, ref: string)

  /** The working set itself shows the address. */
  ghost predicate Loaded(s: State, a: Address) {
    match a.kind
    case HexKind => a.ref in s.hexRefs
    case DecisionKind => exists d :: d in s.decisions && DecisionAddress(d) == Some(a.ref)
    case QuestionKind => exists q :: q in s.questions && q.id == a.ref
    case PinKind => exists p :: p in s.pins && p.pinId == a.ref
    case SummaryKind => false
  }

  ghost predicate InLedger(ledger: Ledger, a: Address) {
    a.kind in ledger && a.ref in ledger[a.kind]
  }

  /** The file the state's own pointer names holds the address. */
  ghost predicate InPointedFile(s: State, disk: Disk, a: Address) {
    s.unloadedLedger.Some? && s.unloadedLedger.value in disk && InLedger(disk[s.unloadedLedger.value], a)
  }

  ghost predicate Reachable(s: State, disk: Disk, a: Address) {
    Loaded(s, a) || InLedger(s.dropped, a) || InPointedFile(s, disk, a)
  }

  /** Nothing reachable in the first pair is unreachable in the second. */
  ghost predicate Keeps(s: State, disk: Disk, s': State, disk': Disk) {
    forall a :: Reachable(s, disk, a) ==> Reachable(s', disk', a)
  }

  /** A project spills to one path: a pointer, once set, names the path given to the call. */
  predicate OnePath(s: State, env: Env) {
    env.spill.Some? && s.unloadedLedger.Some? ==> s.unloadedLedger == env.spill
  }

  // ----- the ledger operations -----

  lemma DropKeeps(ledger: Ledger, kind: Kind, ref: Option<string>)
    ensures forall a :: InLedger(ledger, a) ==> InLedger(Drop(ledger, kind, ref), a)
    ensures ref.Some? ==> InLedger(Drop(ledger, kind, ref), Address(kind, ref.value))
  {
  }

  lemma {:induction false} DropAllKeeps(ledger: Ledger, kind: Kind, refs: seq<string>)
    ensures forall a :: InLedger(ledger, a) ==> InLedger(DropAll(ledger, kind, refs), a)
    ensures forall r :: r in refs ==> InLedger(DropAll(ledger, kind, refs), Address(kind, r))
    decreases |refs|
  {
    if refs != [] {
      var next := Drop(ledger, kind, Some(refs[0]));
      DropKeeps(ledger, kind, Some(refs[0]));
      DropAllKeeps(next, kind, refs[1..]);
      forall r | r in refs ensures InLedger(DropAll(ledger, kind, refs), Address(kind, r)) {
        if r != refs[0] { assert r in refs[1..]; }
      }
    }
  }

  lemma {:induction false} AppendNewElements(bucket: seq<string>, refs: seq<string>)
    ensures forall r :: r in AppendNew(bucket, refs) <==> r in bucket || r in refs
    decreases |refs|
  {
    if refs != [] {
      var next := if refs[0] in bucket then bucket else bucket + [refs[0]];
      AppendNewElements(next, refs[1..]);
      assert forall r :: r in refs <==> r == refs[0] || r in refs[1..];
    }
  }

  /** A spilled file holds exactly what the file held before and what the ledger held. */
  lemma MergeLedgerElements(prior: Ledger, added: Ledger, a: Address)
    ensures InLedger(MergeLedger(prior, added), a) <==> InLedger(prior, a) || InLedger(added, a)
  {
    AppendNewElements(Bucket(prior, a.kind), Bucket(added, a.kind));
  }

  // ----- the rungs -----

  lemma {:induction false} TrimHintsKeeps(s: State, disk: Disk, env: Env)
    ensures Keeps(s, disk, TrimHints(s, env), disk)
    decreases |s.hints|
  {
    if s.hints != [] && !Fits(s, env) {
      var next := s.(hints := s.hints[1..]);
      forall a | Reachable(s, disk, a) ensures Reachable(next, disk, a) {}
      TrimHintsKeeps(next, disk, env);
    }
  }

  lemma UnloadHexKeeps(s: State, disk: Disk)
    requires s.hexRefs != []
    ensures Keeps(s, disk, UnloadHex(s), disk)
  {
    DropKeeps(s.dropped, HexKind, Some(s.hexRefs[0]));
    forall a | Reachable(s, disk, a) ensures Reachable(UnloadHex(s), disk, a) {
      if a.kind == HexKind && a.ref in s.hexRefs && a.ref != s.hexRefs[0] { assert a.ref in s.hexRefs[1..]; }
    }
  }

  lemma {:induction false} TrimHexRefsKeeps(s: State, disk: Disk, env: Env)
    ensures Keeps(s, disk, TrimHexRefs(s, env), disk)
    decreases |s.hexRefs|
  {
    if s.hexRefs != [] && !Fits(s, env) {
      UnloadHexKeeps(s, disk);
      TrimHexRefsKeeps(UnloadHex(s), disk, env);
    }
  }

  lemma StripTitlesKeeps(s: State, disk: Disk, env: Env)
    ensures Keeps(s, disk, StripTitles(s, env), disk)
  {
    var t := StripTitles(s, env);
    forall a | Reachable(s, disk, a) ensures Reachable(t, disk, a) {
      if a.kind == DecisionKind && Loaded(s, a) && t != s {
        var i :| 0 <= i < |s.decisions| && DecisionAddress(s.decisions[i]) == Some(a.ref);
        assert t.decisions[i] in t.decisions;
      }
    }
  }

  lemma UnloadDecisionKeeps(s: State, disk: Disk)
    requires s.decisions != []
    ensures Keeps(s, disk, UnloadDecision(s), disk)
  {
    var t := UnloadDecision(s);
    DropKeeps(s.dropped, DecisionKind, DecisionAddress(s.decisions[0]));
    forall a | Reachable(s, disk, a) ensures Reachable(t, disk, a) {
      if a.kind == DecisionKind && Loaded(s, a) {
        var d :| d in s.decisions && DecisionAddress(d) == Some(a.ref);
        if d != s.decisions[0] { assert d in t.decisions; }
      }
    }
  }

  lemma {:induction false} TrimDecisionsKeeps(s: State, disk: Disk, env: Env)
    ensures Keeps(s, disk, TrimDecisions(s, env), disk)
    decreases |s.decisions|
  {
    if s.decisions != [] && !Fits(s, env) {
      UnloadDecisionKeeps(s, disk);
      TrimDecisionsKeeps(UnloadDecision(s), disk, env);
    }
  }

  lemma SummaryKeeps(s: State, disk: Disk, env: Env)
    ensures Keeps(s, disk, UnloadSummary(HeadSummary(s, env), env), disk)
  {
    var t := HeadSummary(s, env);
    DropKeeps(s.dropped, SummaryKind, env.pointer);
    DropKeeps(t.dropped, SummaryKind, env.pointer);
    forall a | Reachable(s, disk, a) ensures Reachable(UnloadSummary(t, env), disk, a) {}
  }

  lemma UnloadResolvedKeeps(s: State, disk: Disk, env: Env)
    ensures Keeps(s, disk, UnloadResolved(s, env), disk)
  {
    var t := UnloadResolved(s, env);
    UnresolvedElements(s.questions);
    DropAllKeeps(s.dropped, QuestionKind, ResolvedIds(s.questions));
    forall a | Reachable(s, disk, a) ensures Reachable(t, disk, a) {
      if a.kind == QuestionKind && Loaded(s, a) && t != s {
        var q :| q in s.questions && q.id == a.ref;
        if !q.resolved { assert q in t.questions; } else { assert InLedger(t.dropped, a); }
      }
    }
  }

  lemma UnloadPinsKeeps(s: State, disk: Disk, env: Env)
    ensures Keeps(s, disk, UnloadPins(s, env), disk)
  {
    var t := UnloadPins(s, env);
    CriticalsElements(s.pins);
    DropAllKeeps(s.dropped, PinKind, OrdinaryIds(s.pins));
    forall a | Reachable(s, disk, a) ensures Reachable(t, disk, a) {
      if a.kind == PinKind && Loaded(s, a) && t != s {
        var p :| p in s.pins && p.pinId == a.ref;
        if p.critical { assert p in t.pins; } else { assert InLedger(t.dropped, a); }
      }
    }
  }

  lemma CompactQuestionsKeeps(s: State, disk: Disk, env: Env)
    ensures Keeps(s, disk, CompactQuestions(s, env), disk)
  {
    var t := CompactQuestions(s, env);
    forall a | Reachable(s, disk, a) ensures Reachable(t, disk, a) {
      if a.kind == QuestionKind && Loaded(s, a) && t != s {
        var i :| 0 <= i < |s.questions| && s.questions[i].id == a.ref;
        assert t.questions[i] in t.questions;
      }
    }
  }

  lemma SpillKeeps(s: State, disk: Disk, env: Env)
    requires OnePath(s, env)
    ensures Keeps(s, disk, SpillState(s, env), SpillDisk(s, disk, env))
  {
    if Spills(s, env) {
      var name := env.spill.value;
      var prior := if name in disk then disk[name] else map[];
      forall a | Reachable(s, disk, a) ensures Reachable(SpillState(s, env), SpillDisk(s, disk, env), a) {
        MergeLedgerElements(prior, s.dropped, a);
      }
    }
  }

  // ----- the ladder -----

  /** Rungs 1 to 7 never touch the pointer. */
  lemma {:induction false} StagePointer(k: nat, s: State, env: Env)
    requires k < RUNGS
    ensures Stage(k, s, env).unloadedLedger == s.unloadedLedger
  {
    if k > 0 {
      StagePointer(k - 1, s, env);
      RungFrame(k, Stage(k - 1, s, env), env);
    }
  }

  lemma RungKeeps(k: nat, s: State, disk: Disk, env: Env)
    requires 1 <= k < RUNGS
    ensures Keeps(s, disk, Rung(k, s, env), disk)
  {
    match k
    case 1 => TrimHintsKeeps(s, disk, env);
    case 2 => TrimHexRefsKeeps(s, disk, env);
    case 3 =>
      StripTitlesKeeps(s, disk, env);
      TrimDecisionsKeeps(StripTitles(s, env), disk, env);
    case 4 => SummaryKeeps(s, disk, env);
    case 5 => UnloadResolvedKeeps(s, disk, env);
    case 6 => UnloadPinsKeeps(s, disk, env);
    case 7 => CompactQuestionsKeeps(s, disk, env);
  }

  lemma {:induction false} StageKeeps(k: nat, s: State, disk: Disk, env: Env)
    requires k < RUNGS
    ensures Keeps(s, disk, Stage(k, s, env), disk)
  {
    if k > 0 {
      StageKeeps(k - 1, s, disk, env);
      RungKeeps(k, Stage(k - 1, s, env), disk, env);
    }
  }

  /** Writing the over-budget flag hides nothing. */
  lemma FlagKeeps(s: State, disk: Disk, flag: bool)
    ensures Keeps(s, disk, s.(overBudget := flag), disk)
  {
    forall a | Reachable(s, disk, a) ensures Reachable(s.(overBudget := flag), disk, a) {}
  }

  /** The file a spill leaves behind holds everything the pointed file held, even when the state is then reverted. */
  lemma SpillDiskGrows(s: State, disk: Disk, env: Env, name: string, a: Address)
    requires name in disk && InLedger(disk[name], a)
    ensures name in SpillDisk(s, disk, env) && InLedger(SpillDisk(s, disk, env)[name], a)
  {
    if Spills(s, env) && name == env.spill.value { MergeLedgerElements(disk[name], s.dropped, a); }
  }

  /**
   Address conservation. For every state, meter, budget, pointer and spill choice, whatever was reachable before a
   call is reachable after it: loaded, in the ledger, or in the file the ledger pointer names. This covers the early
   return, the compacted state and the reverted state, and the one-path discipline itself survives the call.
   */
  lemma EnforceConserves(s: State, disk: Disk, env: Env)
    requires OnePath(s, env)
    ensures Keeps(s, disk, EnforceState(s, env), EnforceDisk(s, disk, env))
    ensures OnePath(EnforceState(s, env), env)
  {
    var last := Stage(RUNGS - 1, s, env);
    var disk' := EnforceDisk(s, disk, env);
    StagePointer(RUNGS - 1, s, env);
    if Fits(s, env) {
    } else if Reverts(s, env) {
      forall a | Reachable(s, disk, a) ensures Reachable(s, disk', a) {
        if InPointedFile(s, disk, a) { SpillDiskGrows(last, disk, env, s.unloadedLedger.value, a); }
      }
    } else {
      StageKeeps(RUNGS - 1, s, disk, env);
      SpillKeeps(last, disk, env);
    }
    FlagKeeps(Measured(s, env), disk', EnforceReport(s, env).overBudget);
  }

  // ----- nothing is invented -----

  lemma {:induction false} DropAllElements(ledger: Ledger, kind: Kind, refs: seq<string>, a: Address)
    ensures InLedger(DropAll(ledger, kind, refs), a) <==> InLedger(ledger, a) || (a.kind == kind && a.ref in refs)
    decreases |refs|
  {
    if refs != [] {
      DropAllElements(Drop(ledger, kind, Some(refs[0])), kind, refs[1..], a);
    }
  }

  lemma {:induction false} DropDecisionsElements(ledger: Ledger, ds: seq<Decision>, a: Address)
    ensures InLedger(DropDecisions(ledger, ds), a) <==>
            InLedger(ledger, a) || (a.kind == DecisionKind && exists d :: d in ds && DecisionAddress(d) == Some(a.ref))
    decreases |ds|
  {
    if ds != [] {
      DropDecisionsElements(Drop(ledger, DecisionKind, DecisionAddress(ds[0])), ds[1..], a);
      assert forall d :: d in ds <==> d == ds[0] || d in ds[1..];
    }
  }

  lemma {:induction false} ResolvedIdsHave(qs: seq<Question>, id: string)
    requires id in ResolvedIds(qs)
    ensures exists q :: q in qs && q.id == id
  {
    if !(qs[0].resolved && qs[0].id == id) {
      ResolvedIdsHave(qs[1..], id);
      var q :| q in qs[1..] && q.id == id;
      assert q in qs;
    }
  }

  lemma {:induction false} OrdinaryIdsHave(ps: seq<PinView>, id: string)
    requires id in OrdinaryIds(ps)
    ensures exists p :: p in ps && p.pinId == id
  {
    if !(!ps[0].critical && ps[0].pinId == id) {
      OrdinaryIdsHave(ps[1..], id);
      var p :| p in ps[1..] && p.pinId == id;
      assert p in ps;
    }
  }

  /** Until the spill, the in-state ledger only grows. */
  lemma RungLedgerGrows(k: nat, s: State, env: Env, a: Address)
    requires 1 <= k < RUNGS && InLedger(s.dropped, a)
    ensures InLedger(Rung(k, s, env).dropped, a)
  {
    match k
    case 1 => TrimHintsShortest(s, env);
    case 2 =>
      TrimHexRefsShortest(s, env);
      DropAllElements(s.dropped, HexKind, s.hexRefs[..|s.hexRefs| - |TrimHexRefs(s, env).hexRefs|], a);
    case 3 =>
      var t := StripTitles(s, env);
      TrimDecisionsShortest(t, env);
      DropDecisionsElements(t.dropped, t.decisions[..|t.decisions| - |TrimDecisions(t, env).decisions|], a);
    case 4 =>
    case 5 => DropAllElements(s.dropped, QuestionKind, ResolvedIds(s.questions), a);
    case 6 => DropAllElements(s.dropped, PinKind, OrdinaryIds(s.pins), a);
    case 7 =>
  }

  lemma {:induction false} StageLedgerGrows(k: nat, s: State, env: Env, a: Address)
    requires k < RUNGS && InLedger(s.dropped, a)
    ensures InLedger(Stage(k, s, env).dropped, a)
  {
    if k > 0 {
      StageLedgerGrows(k - 1, s, env, a);
      RungLedgerGrows(k, Stage(k - 1, s, env), env, a);
    }
  }

  /** The address is loaded or in the in-state ledger. */
  ghost predicate Held(s: State, a: Address) {
    Loaded(s, a) || InLedger(s.dropped, a)
  }

  lemma CutHexRefsHeld(s: State, n: nat, a: Address)
    requires n <= |s.hexRefs| && Held(CutHexRefs(s, n), a)
    ensures Held(s, a)
  {
    DropAllElements(s.dropped, HexKind, s.hexRefs[..n], a);
  }

  lemma CutDecisionsHeld(s: State, n: nat, a: Address)
    requires n <= |s.decisions| && Held(CutDecisions(s, n), a)
    ensures Held(s, a)
  {
    DropDecisionsElements(s.dropped, s.decisions[..n], a);
  }

  lemma StripTitlesHeld(s: State, env: Env, a: Address)
    requires Held(StripTitles(s, env), a)
    ensures Held(s, a)
  {
    var t := StripTitles(s, env);
    if a.kind == DecisionKind && Loaded(t, a) && t != s {
      var i :| 0 <= i < |t.decisions| && DecisionAddress(t.decisions[i]) == Some(a.ref);
      assert s.decisions[i] in s.decisions;
    }
  }

  lemma UnloadResolvedHeld(s: State, env: Env, a: Address)
    requires Held(UnloadResolved(s, env), a)
    ensures Held(s, a)
  {
    UnresolvedElements(s.questions);
    DropAllElements(s.dropped, QuestionKind, ResolvedIds(s.questions), a);
    if a.ref in ResolvedIds(s.questions) { ResolvedIdsHave(s.questions, a.ref); }
  }

  lemma UnloadPinsHeld(s: State, env: Env, a: Address)
    requires Held(UnloadPins(s, env), a)
    ensures Held(s, a)
  {
    CriticalsElements(s.pins);
    DropAllElements(s.dropped, PinKind, OrdinaryIds(s.pins), a);
    if a.ref in OrdinaryIds(s.pins) { OrdinaryIdsHave(s.pins, a.ref); }
  }

  lemma CompactQuestionsHeld(s: State, env: Env, a: Address)
    requires Held(CompactQuestions(s, env), a)
    ensures Held(s, a)
  {
    var t := CompactQuestions(s, env);
    if a.kind == QuestionKind && Loaded(t, a) && t != s {
      var i :| 0 <= i < |t.questions| && t.questions[i].id == a.ref;
      assert s.questions[i] in s.questions;
    }
  }

  /** A rung files only what was there: apart from the summary's pointer, it holds nothing the state before did not. */
  lemma RungInventsNothing(k: nat, s: State, env: Env, a: Address)
    requires 1 <= k < RUNGS && a.kind != SummaryKind && Held(Rung(k, s, env), a)
    ensures Held(s, a)
  {
    match k
    case 1 => TrimHintsShortest(s, env);
    case 2 =>
      TrimHexRefsShortest(s, env);
      CutHexRefsHeld(s, |s.hexRefs| - |TrimHexRefs(s, env).hexRefs|, a);
    case 3 =>
      var t := StripTitles(s, env);
      TrimDecisionsShortest(t, env);
      CutDecisionsHeld(t, |t.decisions| - |TrimDecisions(t, env).decisions|, a);
      StripTitlesHeld(s, env, a);
    case 4 =>
    case 5 => UnloadResolvedHeld(s, env, a);
    case 6 => UnloadPinsHeld(s, env, a);
    case 7 => CompactQuestionsHeld(s, env, a);
  }

  lemma {:induction false} StageInventsNothing(k: nat, s: State, env: Env, a: Address)
    requires k < RUNGS && a.kind != SummaryKind && Held(Stage(k, s, env), a)
    ensures Held(s, a)
  {
    if k > 0 {
      RungInventsNothing(k, Stage(k - 1, s, env), env, a);
      StageInventsNothing(k - 1, s, env, a);
    }
  }

  /** A state without a pointer does not spill onto a file that knows the address already. */
  ghost predicate NoStrayFile(s: State, disk: Disk, env: Env, a: Address) {
    env.spill.Some? && s.unloadedLedger.None? && env.spill.value in disk ==> !InLedger(disk[env.spill.value], a)
  }

  lemma SpillFileHas(s: State, disk: Disk, env: Env, a: Address)
    requires Spills(s, env) && InLedger(SpillDisk(s, disk, env)[env.spill.value], a)
    ensures InLedger(s.dropped, a) || (env.spill.value in disk && InLedger(disk[env.spill.value], a))
  {
    var name := env.spill.value;
    MergeLedgerElements(if name in disk then disk[name] else map[], s.dropped, a);
  }

  /**
   Conservation is exact. Apart from the summary's pointer, a call makes nothing reachable that was not: with
   `EnforceConserves`, an address is reachable after a call if and only if it was reachable before.
   */
  lemma EnforceInventsNothing(s: State, disk: Disk, env: Env, a: Address)
    requires OnePath(s, env) && a.kind != SummaryKind && NoStrayFile(s, disk, env, a)
    requires Reachable(EnforceState(s, env), EnforceDisk(s, disk, env), a)
    ensures Reachable(s, disk, a)
  {
    if !Fits(s, env) {
      var last := Stage(RUNGS - 1, s, env);
      var after := EnforceState(s, env);
      StagePointer(RUNGS - 1, s, env);
      if Held(last, a) { StageInventsNothing(RUNGS - 1, s, env, a); }
      if InPointedFile(after, EnforceDisk(s, disk, env), a) && Spills(last, env) && after.unloadedLedger == env.spill {
        SpillFileHas(last, disk, env, a);
      }
    }
  }

  // ----- a decision's second address -----

  /** A decision shows its source beside its hex; only one of the two is filed when it is unloaded. */
  ghost predicate SourceReachable(s: State, disk: Disk, ref: string) {
    (exists d :: d in s.decisions && d.sourceRef == Some(ref)) || Reachable(s, disk, Address(DecisionKind, ref))
  }

  /**
   Unloading a decision keeps a source nothing else leads to if and only if its hex is missing, empty or the same text.
   */
  lemma UnloadKeepsSourceIff(s: State, disk: Disk, ref: string)
    requires s.decisions != [] && s.decisions[0].sourceRef == Some(ref)
    requires !SourceReachable(s.(decisions := s.decisions[1..]), disk, ref)
    ensures SourceReachable(UnloadDecision(s), disk, ref) <==>
            s.decisions[0].hexId.None? || s.decisions[0].hexId.value in {"", ref}
  {
    var rest := s.(decisions := s.decisions[1..]);
    var t := UnloadDecision(s);
    assert !Loaded(rest, Address(DecisionKind, ref)) && t.decisions == rest.decisions;
    DropKeeps(s.dropped, DecisionKind, DecisionAddress(s.decisions[0]));
  }

  /** A call that no rung can satisfy, without a pointer or a spill. */
  const HOPELESS := Env(s => 0, -1, None, None)

  lemma HopelessUnloadsAll(s: State)
    ensures EnforceState(s, HOPELESS).decisions == [] && EnforceState(s, HOPELESS).unloadedLedger == s.unloadedLedger
  {
    var last := Stage(RUNGS - 1, s, HOPELESS);
    StageExhausted(3, RUNGS, s, HOPELESS);
    StagePointer(RUNGS - 1, s, HOPELESS);
  }

  /**
   A decision's source survives every budget if and only if it is already in the ledger or its file, or some loaded
   decision is filed under it, which is a decision whose hex is missing or empty (or spells the same text).
   */
  lemma SourceSurvivesIff(s: State, disk: Disk, ref: string)
    ensures (forall env :: OnePath(s, env) ==>
            SourceReachable(EnforceState(s, env), EnforceDisk(s, disk, env), ref)) <==>
            || InLedger(s.dropped, Address(DecisionKind, ref))
            || InPointedFile(s, disk, Address(DecisionKind, ref))
            || exists d :: d in s.decisions && DecisionAddress(d) == Some(ref)
  {
    var a := Address(DecisionKind, ref);
    if Reachable(s, disk, a) {
      forall env | OnePath(s, env) ensures SourceReachable(EnforceState(s, env), EnforceDisk(s, disk, env), ref) {
        EnforceConserves(s, disk, env);
      }
    } else {
      var after := EnforceState(s, HOPELESS);
      HopelessUnloadsAll(s);
      if SourceReachable(after, EnforceDisk(s, disk, HOPELESS), ref) { EnforceInventsNothing(s, disk, HOPELESS, a); }
      assert OnePath(s, HOPELESS);
    }
  }

  // ----- the running summary -----

  /** The summary rung shortens nothing without filing where the full text is. */
  lemma SummaryRungFiles(s: State, env: Env)
    requires Rung(4, s, env).summary != s.summary
    ensures HasPointer(env) && InLedger(Rung(4, s, env).dropped, Address(SummaryKind, env.pointer.value))
  {
    DropKeeps(s.dropped, SummaryKind, env.pointer);
    DropKeeps(HeadSummary(s, env).dropped, SummaryKind, env.pointer);
  }

  lemma {:induction false} StageFiles(k: nat, s: State, disk: Disk, env: Env)
    requires k < RUNGS && Stage(k, s, env).summary != s.summary
    ensures HasPointer(env) && Reachable(Stage(k, s, env), disk, Address(SummaryKind, env.pointer.value))
  {
    var prev := Stage(k - 1, s, env);
    if k == 4 {
      if prev.summary == s.summary { SummaryRungFiles(prev, env); } else { StageFiles(k - 1, s, disk, env); }
    } else {
      RungFrame(k, prev, env);
      StageFiles(k - 1, s, disk, env);
    }
    RungKeeps(k, prev, disk, env);
  }

  /** A summary that a call shortened or unloaded is addressable afterwards; without a pointer it is left whole. */
  lemma SummaryNeverLost(s: State, disk: Disk, env: Env)
    requires OnePath(s, env) && EnforceState(s, env).summary != s.summary
    ensures HasPointer(env)
    ensures Reachable(EnforceState(s, env), EnforceDisk(s, disk, env), Address(SummaryKind, env.pointer.value))
  {
    var last := Stage(RUNGS - 1, s, env);
    RungFrame(RUNGS, last, env);
    StageFiles(RUNGS - 1, s, disk, env);
    StagePointer(RUNGS - 1, s, env);
    SpillKeeps(last, disk, env);
    FlagKeeps(Stage(RUNGS, s, env), EnforceDisk(s, disk, env), EnforceReport(s, env).overBudget);
  }
}
