/**
 A reference for the ladder that knows nothing of loops: list every state compaction may try, in order, and take the
 first that fits.
 */
module FirstFit {
  import opened Common
  import opened Compaction
  import opened LadderOrder

  /** The first state that fits, or the last one when none does. */
  function First(cs: seq<State>, env: Env): State
    requires cs != []
  {
    if |cs| == 1 || env.meter(cs[0]) <= env.budget then cs[0] else First(cs[1..], env)
  }

  /** The text up to the last of its first `chars` characters that is not a space, and the mark. */
  ghost predicate IsHead(text: string, chars: nat, head: string) {
    exists n :: IsHeadOf(text, chars, head, n)
  }

  ghost predicate IsHeadOf(text: string, chars: nat, head: string, n: nat) {
    && n <= chars <= |text| && head == text[..n] + " [...]"
    && (n > 0 ==> !IsSpace(text[n - 1])) && forall i :: n <= i < chars ==> IsSpace(text[i])
  }

  lemma HeadIsHead(text: string, chars: nat)
    requires chars <= |text|
    ensures IsHead(text, chars, Head(text, chars))
  {
    var n := |RStrip(text[..chars])|;
    assert RStrip(text[..chars]) == text[..n];
    assert IsHeadOf(text, chars, Head(text, chars), n);
  }

  function Filed(s: State, kind: Kind, ref: string): State {
    s.(dropped := Drop(s.dropped, kind, Some(ref)))
  }

  /** One more hint gone each time, oldest first. */
  function HintCuts(s: State): (cs: seq<State>)
    ensures |cs| == |s.hints| && forall i {:trigger cs[i]} :: 0 <= i < |cs| ==> cs[i] == CutHints(s, i + 1)
  {
    seq(|s.hints|, i requires 0 <= i < |s.hints| => CutHints(s, i + 1))
  }

  function HexRefCuts(s: State): (cs: seq<State>)
    ensures |cs| == |s.hexRefs| && forall i {:trigger cs[i]} :: 0 <= i < |cs| ==> cs[i] == CutHexRefs(s, i + 1)
  {
    seq(|s.hexRefs|, i requires 0 <= i < |s.hexRefs| => CutHexRefs(s, i + 1))
  }

  function DecisionCuts(s: State): (cs: seq<State>)
    ensures |cs| == |s.decisions| && forall i {:trigger cs[i]} :: 0 <= i < |cs| ==> cs[i] == CutDecisions(s, i + 1)
  {
    seq(|s.decisions|, i requires 0 <= i < |s.decisions| => CutDecisions(s, i + 1))
  }

  /** What rung `k` may try on a state, each attempt taking more than the one before. */
  function Attempts(k: nat, s: State, env: Env): seq<State>
    requires 1 <= k <= 8
  {
    match k
    case 1 => HintCuts(s)
    case 2 => HexRefCuts(s)
    case 3 =>
      var lean := s.(decisions := Untitled(s.decisions));
      [lean] + DecisionCuts(lean)
    case 4 =>
      if env.pointer.None? || env.pointer.value == "" || s.summary == "" then []
      else
        var filed := Filed(s, SummaryKind, env.pointer.value);
        (if |s.summary| > 600 then [filed.(summary := Head(s.summary, 600))] else []) + [filed.(summary := "")]
    case 5 =>
      if forall q :: q in s.questions ==> !q.resolved then []
      else [s.(questions := Unresolved(s.questions),
               dropped := DropAll(s.dropped, QuestionKind, ResolvedIds(s.questions)))]
    case 6 =>
      if forall p :: p in s.pins ==> p.critical then []
      else [s.(pins := Criticals(s.pins), dropped := DropAll(s.dropped, PinKind, OrdinaryIds(s.pins)))]
    case 7 =>
      if forall q :: q in s.questions ==> |q.text| <= 80 then [] else [s.(questions := CompactTexts(s.questions))]
    case 8 =>
      if env.spill.None? || s.dropped == map[] then [] else [s.(dropped := map[], unloadedLedger := env.spill)]
  }

  /** The state itself, and everything the first `k` rungs may try. */
  function Trail(k: nat, s: State, env: Env): (cs: seq<State>)
    requires k <= 8
    ensures cs != []
    decreases k, s
  {
    if k == 0 then [s]
    else
      var before := Trail(k - 1, s, env);
      before + Attempts(k, before[|before| - 1], env)
  }

  // ----- the rungs are first fits -----

  lemma {:induction false} FirstIs(cs: seq<State>, env: Env, i: nat)
    requires i < |cs| && forall j :: 0 <= j < i ==> !Fits(cs[j], env)
    requires Fits(cs[i], env) || i == |cs| - 1
    ensures First(cs, env) == cs[i]
  {
    if i > 0 { FirstIs(cs[1..], env, i - 1); }
  }

  lemma {:induction false} FirstConcat(a: seq<State>, b: seq<State>, env: Env)
    requires a != []
    ensures First(a + b, env) == if Fits(First(a, env), env) || b == [] then First(a, env) else First(b, env)
    ensures !Fits(First(a, env), env) ==> First(a, env) == a[|a| - 1]
  {
    if b == [] { assert a + b == a; }
    if |a| == 1 {
      assert (a + b)[0] == a[0] && (a + b)[1..] == b;
    } else {
      assert (a + b)[0] == a[0] && (a + b)[1..] == a[1..] + b;
      FirstConcat(a[1..], b, env);
    }
  }

  /** The first fit of a state and its cuts, when cut `n` is the first that fits, or there are only `n`. */
  lemma FirstCut(s: State, cuts: seq<State>, env: Env, n: nat)
    requires n <= |cuts| && (n > 0 ==> !Fits(s, env)) && forall j :: 0 <= j < n - 1 ==> !Fits(cuts[j], env)
    requires n == |cuts| || Fits(if n == 0 then s else cuts[n - 1], env)
    ensures First([s] + cuts, env) == if n == 0 then s else cuts[n - 1]
  {
    assert ([s] + cuts)[1..] == cuts;
    if n > 0 { FirstIs(cuts, env, n - 1); }
  }

  lemma HintsFirst(s: State, env: Env)
    ensures First([s] + HintCuts(s), env) == TrimHints(s, env)
  {
    TrimHintsShortest(s, env);
    var cuts, n := HintCuts(s), |s.hints| - |TrimHints(s, env).hints|;
    assert CutHints(s, 0) == s;
    forall j | 0 <= j < n - 1 ensures !Fits(cuts[j], env) {
      assert cuts[j] == CutHints(s, j + 1);
    }
    FirstCut(s, cuts, env, n);
  }

  lemma HexRefsFirst(s: State, env: Env)
    ensures First([s] + HexRefCuts(s), env) == TrimHexRefs(s, env)
  {
    var n: int := TrimHexRefsCut(s, env);
    var cuts := HexRefCuts(s);
    assert CutHexRefs(s, 0) == s;
    forall j | 0 <= j < n - 1 ensures !Fits(cuts[j], env) {
      assert cuts[j] == CutHexRefs(s, j + 1);
    }
    FirstCut(s, cuts, env, n);
  }

  lemma CutsFirst(s: State, env: Env)
    ensures First([s] + DecisionCuts(s), env) == TrimDecisions(s, env)
  {
    TrimDecisionsShortest(s, env);
    var cuts, n := DecisionCuts(s), |s.decisions| - |TrimDecisions(s, env).decisions|;
    assert CutDecisions(s, 0) == s;
    forall j | 0 <= j < n - 1 ensures !Fits(cuts[j], env) {
      assert cuts[j] == CutDecisions(s, j + 1);
    }
    FirstCut(s, cuts, env, n);
  }

  lemma UntitledSame(ds: seq<Decision>)
    requires forall d :: d in ds ==> d.title.None?
    ensures Untitled(ds) == ds
  {
    forall i | 0 <= i < |ds| ensures Untitled(ds)[i] == ds[i] {
      assert ds[i] in ds;
    }
  }

  lemma DecisionsFirst(s: State, env: Env)
    requires !Fits(s, env)
    ensures First(Attempts(3, s, env), env) == Rung(3, s, env)
  {
    var lean := s.(decisions := Untitled(s.decisions));
    if forall d :: d in s.decisions ==> d.title.None? { UntitledSame(s.decisions); }
    assert StripTitles(s, env) == lean;
    CutsFirst(lean, env);
  }

  lemma SummaryFirst(s: State, env: Env)
    requires !Fits(s, env)
    ensures var cs := Attempts(4, s, env); Rung(4, s, env) == if cs == [] then s else First(cs, env)
  {
  }

  lemma RungIsFirst(k: nat, s: State, env: Env)
    requires 1 <= k <= 8 && !Fits(s, env)
    ensures var cs := Attempts(k, s, env); Rung(k, s, env) == if cs == [] then s else First(cs, env)
  {
    match k
    case 1 =>
      HintsFirst(s, env);
      FirstConcat([s], Attempts(1, s, env), env);
    case 2 =>
      HexRefsFirst(s, env);
      FirstConcat([s], Attempts(2, s, env), env);
    case 3 => DecisionsFirst(s, env);
    case 4 => SummaryFirst(s, env);
    case 5 =>
    case 6 =>
    case 7 =>
    case 8 =>
  }

  /** What taking the first fit gives, as a relation. */
  ghost predicate IsFirst(cs: seq<State>, env: Env, r: State) {
    cs != [] && r == First(cs, env)
  }

  lemma NextIsFirst(k: nat, before: seq<State>, env: Env, st: State)
    requires 1 <= k <= 8 && IsFirst(before, env, st)
    ensures IsFirst(before + Attempts(k, before[|before| - 1], env), env, Rung(k, st, env))
  {
    var x := before[|before| - 1];
    FirstConcat(before, Attempts(k, x, env), env);
    if Fits(st, env) {
      RungStops(k, st, env);
    } else {
      RungIsFirst(k, x, env);
    }
  }

  /** The first `k` rungs leave the first state of their trail that fits. */
  lemma {:induction false} StageIsFirst(k: nat, s: State, env: Env)
    requires k <= RUNGS
    ensures IsFirst(Trail(k, s, env), env, Stage(k, s, env))
  {
    if k > 0 {
      StageIsFirst(k - 1, s, env);
      NextIsFirst(k, Trail(k - 1, s, env), env, Stage(k - 1, s, env));
    }
  }

  /**
   The whole call against the reference. A state that fits is kept; otherwise the first fitting state of the trail is
   taken, or the last one, unless it costs more than the state did; and the flag says whether the result fits.
   */
  lemma EnforceIsFirstFit(s: State, env: Env)
    ensures var found := First(Trail(8, s, env), env);
      var kept := if env.meter(found) > env.meter(s) then s else found;
      && EnforceState(s, env) == kept.(overBudget := env.meter(kept) > env.budget)
      && EnforceReport(s, env).before == env.meter(s) && EnforceReport(s, env).after == env.meter(kept)
      && EnforceReport(s, env).budget == env.budget
  {
    StageIsFirst(RUNGS, s, env);
    if Fits(s, env) {
      StageStops(0, RUNGS, s, env);
    }
  }

  // ----- titles go before decisions -----

  /** Hints and hex refs are gone, and every hex ref is filed. */
  function Spent(s: State): State {
    s.(hints := [], hexRefs := [], dropped := DropAll(s.dropped, HexKind, s.hexRefs))
  }

  /** The same, with every decision reduced to its hex and its source. */
  function Lean(s: State): State {
    Spent(s).(decisions := Untitled(s.decisions))
  }

  /** Nothing before the decisions makes the state fit. */
  ghost predicate NeedsDecisions(s: State, env: Env) {
    && (forall n :: 0 <= n <= |s.hints| ==> !Fits(CutHints(s, n), env))
    && (forall n :: 0 <= n <= |s.hexRefs| ==> !Fits(CutHexRefs(CutHints(s, |s.hints|), n), env))
  }

  lemma SpentStage(s: State, env: Env)
    requires NeedsDecisions(s, env)
    ensures Stage(2, s, env) == Spent(s) && !Fits(Spent(s), env)
  {
    TrimHintsShortest(s, env);
    var t := CutHints(s, |s.hints|);
    assert Stage(1, s, env) == t;
    TrimHexRefsShortest(t, env);
    assert Stage(2, s, env) == CutHexRefs(t, |s.hexRefs|);
    assert s.hexRefs[..|s.hexRefs|] == s.hexRefs;
  }

  lemma LeanStage(s: State, env: Env)
    requires NeedsDecisions(s, env)
    ensures Stage(3, s, env) == TrimDecisions(Lean(s), env)
  {
    SpentStage(s, env);
    if forall d :: d in s.decisions ==> d.title.None? { UntitledSame(s.decisions); }
    assert StripTitles(Spent(s), env) == Lean(s);
  }

  lemma RungDecisions(k: nat, s: State, env: Env)
    requires 3 < k <= RUNGS
    ensures Rung(k, s, env).decisions == s.decisions
  {
  }

  lemma {:induction false} LaterDecisions(k: nat, s: State, env: Env)
    requires 3 <= k <= RUNGS
    ensures Stage(k, s, env).decisions == Stage(3, s, env).decisions
  {
    if k > 3 {
      LaterDecisions(k - 1, s, env);
      RungDecisions(k, Stage(k - 1, s, env), env);
    }
  }

  lemma EarlierDecisions(s: State, env: Env)
    requires !NeedsDecisions(s, env)
    ensures Stage(RUNGS, s, env).decisions == s.decisions
  {
    TrimHintsShortest(s, env);
    if Fits(TrimHints(s, env), env) {
      assert Stage(1, s, env) == TrimHints(s, env);
      StageStops(1, RUNGS, s, env);
    } else {
      var t := CutHints(s, |s.hints|);
      assert Stage(1, s, env) == t;
      TrimHexRefsShortest(t, env);
      assert Stage(2, s, env) == TrimHexRefs(t, env);
      StageStops(2, RUNGS, s, env);
    }
  }

  lemma CutTitles(s: State, n: nat)
    requires n <= |s.decisions|
    ensures forall d :: d in CutDecisions(Lean(s), n).decisions ==> d.title.None?
  {
    var ds := CutDecisions(Lean(s), n).decisions;
    forall i | 0 <= i < |ds| ensures ds[i].title.None? {
      assert ds[i] == Untitled(s.decisions)[n + i];
    }
  }

  lemma LeanCut(s: State, env: Env)
    ensures var t := TrimDecisions(Lean(s), env);
      && (forall d :: d in t.decisions ==> d.title.None?)
      && (|t.decisions| < |s.decisions| ==> !Fits(Lean(s), env))
      && (Fits(Lean(s), env) ==> t == Lean(s))
  {
    var lean, t := Lean(s), TrimDecisions(Lean(s), env);
    TrimDecisionsShortest(lean, env);
    assert CutDecisions(lean, 0) == lean;
    CutTitles(s, |s.decisions| - |t.decisions|);
  }

  lemma LeanFits(s: State, env: Env)
    requires NeedsDecisions(s, env) && Fits(Lean(s), env)
    ensures Stage(RUNGS, s, env) == Lean(s)
  {
    LeanStage(s, env);
    LeanCut(s, env);
    StageStops(3, RUNGS, s, env);
  }

  /** Once hints and hex refs are spent, the decisions left are those the shortest cut of the lean state leaves. */
  lemma LeanDecisions(s: State, env: Env)
    requires NeedsDecisions(s, env)
    ensures Stage(RUNGS, s, env).decisions == TrimDecisions(Lean(s), env).decisions
  {
    LeanStage(s, env);
    LaterDecisions(RUNGS, s, env);
  }

  /**
   Decisions give up their titles first. If the state without titles fits once hints and hex refs are spent, the call
   leaves exactly that state. A decision is unloaded only if it does not, and once this rung has run no title is left.
   */
  lemma TitlesGoFirst(s: State, env: Env)
    ensures NeedsDecisions(s, env) && Fits(Lean(s), env) ==> EnforceState(s, env) == Lean(s).(overBudget := false)
    ensures |EnforceState(s, env).decisions| < |s.decisions| ==> NeedsDecisions(s, env) && !Fits(Lean(s), env)
    ensures NeedsDecisions(s, env) && !Reverts(s, env) ==>
            forall d :: d in EnforceState(s, env).decisions ==> d.title.None?
    ensures !NeedsDecisions(s, env) ==> EnforceState(s, env).decisions == s.decisions
  {
    if NeedsDecisions(s, env) {
      assert CutHints(s, 0) == s;
      LeanDecisions(s, env);
      LeanCut(s, env);
      if Fits(Lean(s), env) { LeanFits(s, env); }
    } else {
      EarlierDecisions(s, env);
    }
  }
}
