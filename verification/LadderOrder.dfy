/**
 The order of the ladder: loops cut the shortest oldest-first prefix, and no rung runs before the earlier ones gave out.
 */
module LadderOrder {
  import opened Common
  import opened Compaction

  // ----- closed forms of the three loops -----

  function CutHints(s: State, n: nat): State
    requires n <= |s.hints|
  {
    s.(hints := s.hints[n..])
  }

  function CutHexRefs(s: State, n: nat): State
    requires n <= |s.hexRefs|
  {
    s.(hexRefs := s.hexRefs[n..], dropped := DropAll(s.dropped, HexKind, s.hexRefs[..n]))
  }

  function DropDecisions(ledger: Ledger, ds: seq<Decision>): Ledger
    decreases |ds|
  {
    if ds == [] then ledger else DropDecisions(Drop(ledger, DecisionKind, DecisionAddress(ds[0])), ds[1..])
  }

  function CutDecisions(s: State, n: nat): State
    requires n <= |s.decisions|
  {
    s.(decisions := s.decisions[n..], dropped := DropDecisions(s.dropped, s.decisions[..n]))
  }

  /** The hint loop removes the shortest oldest-first prefix that makes the state fit, or all hints when none does. */
  lemma {:induction false} TrimHintsShortest(s: State, env: Env)
    ensures var n := |s.hints| - |TrimHints(s, env).hints|;
      && 0 <= n
      && TrimHints(s, env) == CutHints(s, n)
      && (n < |s.hints| ==> Fits(CutHints(s, n), env))
      && forall j :: 0 <= j < n ==> !Fits(CutHints(s, j), env)
    decreases |s.hints|
  {
    assert CutHints(s, 0) == s;
    if s.hints != [] && !Fits(s, env) {
      var next := s.(hints := s.hints[1..]);
      TrimHintsShortest(next, env);
      assert forall j :: 0 <= j <= |next.hints| ==> CutHints(next, j) == CutHints(s, j + 1);
      forall j | 0 <= j < |s.hints| - |TrimHints(s, env).hints| ensures !Fits(CutHints(s, j), env) {
        if j > 0 { assert CutHints(next, j - 1) == CutHints(s, j); }
      }
    }
  }

  lemma CutHexRefsStep(s: State, j: nat)
    requires s.hexRefs != [] && j <= |s.hexRefs| - 1
    ensures CutHexRefs(UnloadHex(s), j) == CutHexRefs(s, j + 1)
  {
    assert s.hexRefs[..j + 1][1..] == s.hexRefs[1..][..j];
    assert s.hexRefs[1..][j..] == s.hexRefs[j + 1..];
  }

  lemma ShorterCutsFail(s: State, env: Env, n: nat)
    requires s.hexRefs != [] && n < |s.hexRefs| && !Fits(CutHexRefs(s, 0), env)
    requires forall j :: 0 <= j < n ==> !Fits(CutHexRefs(UnloadHex(s), j), env)
    ensures forall j :: 0 <= j < n + 1 ==> !Fits(CutHexRefs(s, j), env)
  {
    forall j | 0 <= j < n + 1 ensures !Fits(CutHexRefs(s, j), env) {
      if j > 0 { CutHexRefsStep(s, j - 1); }
    }
  }

  lemma {:induction false} TrimHexRefsCut(s: State, env: Env) returns (n: nat)
    ensures n <= |s.hexRefs| && TrimHexRefs(s, env) == CutHexRefs(s, n)
    ensures n < |s.hexRefs| ==> Fits(CutHexRefs(s, n), env)
    ensures forall j :: 0 <= j < n ==> !Fits(CutHexRefs(s, j), env)
    decreases |s.hexRefs|
  {
    assert CutHexRefs(s, 0) == s;
    n := 0;
    if s.hexRefs != [] && !Fits(s, env) {
      var m := TrimHexRefsCut(UnloadHex(s), env);
      CutHexRefsStep(s, m);
      ShorterCutsFail(s, env, m);
      n := m + 1;
    }
  }

  /**
   The hex-ref loop unloads the shortest oldest-first prefix that makes the state fit, filing every ref it unloads.
   */
  lemma TrimHexRefsShortest(s: State, env: Env)
    ensures var n := |s.hexRefs| - |TrimHexRefs(s, env).hexRefs|;
      && 0 <= n
      && TrimHexRefs(s, env) == CutHexRefs(s, n)
      && (n < |s.hexRefs| ==> Fits(CutHexRefs(s, n), env))
      && forall j :: 0 <= j < n ==> !Fits(CutHexRefs(s, j), env)
  {
    var n := TrimHexRefsCut(s, env);
  }

  lemma CutDecisionsStep(s: State, j: nat)
    requires s.decisions != [] && j <= |s.decisions| - 1
    ensures CutDecisions(UnloadDecision(s), j) == CutDecisions(s, j + 1)
  {
    assert s.decisions[..j + 1][1..] == s.decisions[1..][..j];
    assert s.decisions[1..][j..] == s.decisions[j + 1..];
  }

  /**
   The decision loop unloads the shortest oldest-first prefix that makes the state fit, filing one address of each.
   */
  lemma {:induction false} TrimDecisionsShortest(s: State, env: Env)
    ensures var n := |s.decisions| - |TrimDecisions(s, env).decisions|;
      && 0 <= n
      && TrimDecisions(s, env) == CutDecisions(s, n)
      && (n < |s.decisions| ==> Fits(CutDecisions(s, n), env))
      && forall j :: 0 <= j < n ==> !Fits(CutDecisions(s, j), env)
    decreases |s.decisions|
  {
    assert CutDecisions(s, 0) == s;
    if s.decisions != [] && !Fits(s, env) {
      var next := UnloadDecision(s);
      var r := TrimDecisions(next, env);
      TrimDecisionsShortest(next, env);
      CutDecisionsStep(s, |next.decisions| - |r.decisions|);
      forall j | 0 <= j < |s.decisions| - |r.decisions| ensures !Fits(CutDecisions(s, j), env) {
        if j > 0 { CutDecisionsStep(s, j - 1); }
      }
    }
  }

  /** What a rung leaves alone: the flag always, the pointer before the spill, the summary except on its own rung. */
  lemma RungFrame(k: nat, s: State, env: Env)
    requires 1 <= k <= RUNGS
    ensures Rung(k, s, env).overBudget == s.overBudget
    ensures k < RUNGS ==> Rung(k, s, env).unloadedLedger == s.unloadedLedger
    ensures k != 4 ==> Rung(k, s, env).summary == s.summary
  {
    match k
    case 1 => TrimHintsShortest(s, env);
    case 2 => TrimHexRefsShortest(s, env);
    case 3 => TrimDecisionsShortest(StripTitles(s, env), env);
    case 4 =>
    case 5 =>
    case 6 =>
    case 7 =>
    case 8 =>
  }

  // ----- order -----

  /** Short, or a stripped head of at most 80 characters and the mark that the rest is gone. */
  predicate Compacted(text: string) {
    || |text| <= QUESTION_HEAD_CHARS
    || (var n := |text| - |ELLIPSIS|;
        n <= QUESTION_HEAD_CHARS && text[n..] == ELLIPSIS && Stripped(text[..n]))
  }

  lemma CompactTextCompacts(q: Question)
    ensures Compacted(CompactText(q).text)
  {
    if |q.text| > QUESTION_HEAD_CHARS {
      var head := RStrip(q.text[..QUESTION_HEAD_CHARS]);
      assert (head + ELLIPSIS)[|head|..] == ELLIPSIS && (head + ELLIPSIS)[..|head|] == head;
    }
  }

  /** Compacting a compacted text again saves nothing: it is never shorter, and it may be longer. */
  lemma CompactedIsLeast(q: Question)
    requires Compacted(q.text)
    ensures |CompactText(q).text| >= |q.text|
  {
    if |q.text| > QUESTION_HEAD_CHARS { SecondHead(q.text); }
  }

  /** The head of a text that is a head already, by the length of its stripped part. */
  lemma SecondHead(text: string)
    requires Compacted(text) && |text| > QUESTION_HEAD_CHARS
    ensures var n := |text| - |ELLIPSIS|;
      && 75 <= n <= 80
      && |Head(text, QUESTION_HEAD_CHARS)| == (if n >= 79 then n else QUESTION_HEAD_CHARS) + |ELLIPSIS|
      && (n >= 79 ==> Head(text, QUESTION_HEAD_CHARS) == text)
  {
    var n := |text| - |ELLIPSIS|;
    var head, cut := text[..n], text[..QUESTION_HEAD_CHARS];
    assert text == head + ELLIPSIS;
    assert cut == head + ELLIPSIS[..QUESTION_HEAD_CHARS - n];
    if n == 80 {
      assert cut == head;
    } else if n == 79 {
      assert cut == head + [' '] && cut[..|cut| - 1] == head;
    } else {
      assert cut[|cut| - 1] == ELLIPSIS[QUESTION_HEAD_CHARS - n - 1];
    }
  }

  /** The rung would change the question again: its stripped head is 75 to 78 characters long. */
  predicate Unsettled(q: Question) {
    |q.text| > QUESTION_HEAD_CHARS && 75 <= |RStrip(q.text[..QUESTION_HEAD_CHARS])| <= 78
  }

  /**
   Compacting a question twice is compacting it once if and only if its stripped head is not 75 to 78 characters long.
   */
  lemma CompactTwiceIffSettled(q: Question)
    ensures CompactText(CompactText(q)) == CompactText(q) <==> !Unsettled(q)
  {
    var once := CompactText(q);
    CompactTextCompacts(q);
    if |q.text| > QUESTION_HEAD_CHARS && |once.text| > QUESTION_HEAD_CHARS { SecondHead(once.text); }
  }

  lemma CompactAllTwiceIffSettled(qs: seq<Question>)
    ensures CompactTexts(CompactTexts(qs)) == CompactTexts(qs) <==> forall q :: q in qs ==> !Unsettled(q)
  {
    var once := CompactTexts(qs);
    var twice := CompactTexts(once);
    forall i | 0 <= i < |qs| ensures twice[i] == once[i] <==> !Unsettled(qs[i]) {
      CompactTwiceIffSettled(qs[i]);
    }
  }

  /** One input: 78 letters, two spaces, one more. Compacted it has 84 characters, compacted again 86. */
  lemma CompactingTwiceGrows(id: string)
    ensures var q := Question(id, seq(78, _ => 'a') + "  b", false);
      |CompactText(q).text| == 84 && |CompactText(CompactText(q)).text| == 86
  {
    var head := seq(78, _ => 'a');
    var q := Question(id, head + "  b", false);
    var cut := q.text[..QUESTION_HEAD_CHARS];
    assert cut == head + "  " && cut[..79] == head + " " && cut[..79][..78] == head;
    assert RStrip(cut) == RStrip(cut[..79]) == RStrip(cut[..79][..78]) == head;
    CompactTextCompacts(q);
    SecondHead(CompactText(q).text);
  }

  /** Rung `k` has nothing left to take from `s`. */
  ghost predicate Exhausted(k: nat, s: State, env: Env)
    requires 1 <= k <= RUNGS
  {
    match k
    case 1 => s.hints == []
    case 2 => s.hexRefs == []
    case 3 => s.decisions == []
    case 4 => HasPointer(env) ==> s.summary == ""
    case 5 => forall q :: q in s.questions ==> !q.resolved
    case 6 => forall p :: p in s.pins ==> p.critical
    case 7 => forall q :: q in s.questions ==> Compacted(q.text)
    case 8 => env.spill.Some? ==> s.dropped == map[]
  }

  /** A rung leaves a fitting state alone. */
  lemma RungStops(k: nat, s: State, env: Env)
    requires 1 <= k <= RUNGS && Fits(s, env)
    ensures Rung(k, s, env) == s
  {
  }

  /** A rung that could not make the state fit has taken all it may take. */
  lemma RungExhausts(k: nat, s: State, env: Env)
    requires 1 <= k <= RUNGS && !Fits(Rung(k, s, env), env)
    ensures Exhausted(k, Rung(k, s, env), env)
  {
    match k
    case 1 => TrimHintsShortest(s, env);
    case 2 => TrimHexRefsShortest(s, env);
    case 3 => TrimDecisionsShortest(StripTitles(s, env), env);
    case 4 =>
    case 5 => UnresolvedElements(s.questions);
    case 6 => CriticalsElements(s.pins);
    case 7 =>
    case 8 =>
  }

  /** Later rungs never refill what an earlier one emptied. */
  lemma RungPreserves(j: nat, k: nat, s: State, env: Env)
    requires 1 <= j < k <= RUNGS && Exhausted(j, s, env)
    ensures Exhausted(j, Rung(k, s, env), env)
  {
    match k
    case 2 => TrimHexRefsShortest(s, env);
    case 3 => TrimDecisionsShortest(StripTitles(s, env), env);
    case 4 =>
    case 5 => UnresolvedElements(s.questions);
    case 6 => CriticalsElements(s.pins);
    case 7 =>
      var t := CompactQuestions(s, env);
      assert forall q :: q in t.questions ==>
          exists i :: 0 <= i < |s.questions| && q == t.questions[i] && q.resolved == s.questions[i].resolved;
    case 8 =>
  }

  lemma {:induction false} StageStops(i: nat, k: nat, s: State, env: Env)
    requires i <= k <= RUNGS && Fits(Stage(i, s, env), env)
    ensures Stage(k, s, env) == Stage(i, s, env)
    decreases k
  {
    if i < k {
      StageStops(i, k - 1, s, env);
      RungStops(k, Stage(k - 1, s, env), env);
    }
  }

  lemma {:induction false} StageExhausted(j: nat, k: nat, s: State, env: Env)
    requires 1 <= j <= k <= RUNGS && !Fits(Stage(j, s, env), env)
    ensures Exhausted(j, Stage(k, s, env), env)
    decreases k
  {
    if j == k {
      RungExhausts(j, Stage(j - 1, s, env), env);
    } else {
      StageExhausted(j, k - 1, s, env);
      RungPreserves(j, k, Stage(k - 1, s, env), env);
    }
  }

  /** Strict ladder order: if rung `k` changed anything, every earlier rung is exhausted in the compacted state. */
  lemma StrictOrder(j: nat, k: nat, s: State, env: Env)
    requires 1 <= j < k <= RUNGS
    requires Stage(k, s, env) != Stage(k - 1, s, env)
    ensures Exhausted(j, Stage(RUNGS, s, env), env)
  {
    if Fits(Stage(j, s, env), env) {
      StageStops(j, k, s, env);
      StageStops(j, k - 1, s, env);
    }
    StageExhausted(j, RUNGS, s, env);
  }

  /** A ladder that ends over budget has exhausted every rung: only the irreducible core is left. */
  lemma OverBudgetIsIrreducible(s: State, env: Env, j: nat)
    requires 1 <= j <= RUNGS
    requires !Fits(Stage(RUNGS, s, env), env)
    ensures Exhausted(j, Stage(RUNGS, s, env), env)
  {
    if Fits(Stage(j, s, env), env) { StageStops(j, RUNGS, s, env); }
    StageExhausted(j, RUNGS, s, env);
  }
}
