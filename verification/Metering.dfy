/** What a call reports about cost, for every counter, and what the stored state costs under the default estimator. */
module Metering {
  import opened Common
  import opened Tokens
  import opened Compaction
  import opened LadderOrder
  import opened Conservation

  // ----- the serialised state -----

  function NullOr(v: Option<string>): Json {
    match v case None => Null case Some(s) => Str(s)
  }

  function Strings(xs: seq<string>): Json {
    Arr(seq(|xs|, i requires 0 <= i < |xs| => Str(xs[i])))
  }

  function PinJson(p: PinView): Json {
    Obj([Field("critical", Bool(p.critical)), Field("key", Str(p.key)), Field("pin_id", Str(p.pinId)),
         Field("source_ref", NullOr(p.sourceRef)), Field("status", Str(p.status)), Field("value", Str(p.value))])
  }

  function QuestionJson(q: Question): Json {
    Obj([Field("id", Str(q.id)), Field("resolved", Bool(q.resolved)), Field("text", Str(q.text))])
  }

  function DecisionJson(d: Decision): Json {
    Obj([Field("hex_id", NullOr(d.hexId)), Field("source_ref", NullOr(d.sourceRef))] +
        if d.title.Some? then [Field("title", Str(d.title.value))] else [])
  }

  function PinsJson(xs: seq<PinView>): Json {
    Arr(seq(|xs|, i requires 0 <= i < |xs| => PinJson(xs[i])))
  }

  function QuestionsJson(xs: seq<Question>): Json {
    Arr(seq(|xs|, i requires 0 <= i < |xs| => QuestionJson(xs[i])))
  }

  function DecisionsJson(xs: seq<Decision>): Json {
    Arr(seq(|xs|, i requires 0 <= i < |xs| => DecisionJson(xs[i])))
  }

  function BucketField(ledger: Ledger, kind: Kind, name: string): seq<Field> {
    if kind in ledger then [Field(name, Strings(ledger[kind]))] else []
  }

  function LedgerJson(ledger: Ledger): Json {
    Obj(BucketField(ledger, DecisionKind, "decision") + BucketField(ledger, HexKind, "hex") +
        BucketField(ledger, PinKind, "pin") + BucketField(ledger, QuestionKind, "question") +
        BucketField(ledger, SummaryKind, "summary"))
  }

  function FieldsBeforeDropped(s: State): seq<Field> {
    [Field("active_hex_refs", Strings(s.hexRefs)),
     Field("active_pins", PinsJson(s.pins)),
     Field("current_objective", Str(s.objective)),
     Field("current_summary", Str(s.summary))]
  }

  function FieldsAfterDropped(s: State): seq<Field> {
    [Field("epoch", Num(s.epoch)),
     Field("mission", Str(s.mission)),
     Field("open_questions", QuestionsJson(s.questions))]
  }

  function FieldsBeforeFlag(s: State): seq<Field> {
    FieldsBeforeDropped(s) + [Field("dropped_refs", LedgerJson(s.dropped))] + FieldsAfterDropped(s)
  }

  function FieldsAfterDecisions(s: State): seq<Field> {
    [Field("retrieval_hints", Strings(s.hints)),
     Field("summary_hex", NullOr(s.summaryHex)),
     Field("turn", Num(s.turn)),
     Field("unloaded_ledger", NullOr(s.unloadedLedger))]
  }

  function FieldsAfterFlag(s: State): seq<Field> {
    [Field("recent_decisions", DecisionsJson(s.decisions))] + FieldsAfterDecisions(s)
  }

  /** The state as one object with its keys in sorted order. */
  function StateJson(s: State): Json {
    Obj(FieldsBeforeFlag(s) + [Field("over_budget", Bool(s.overBudget))] + FieldsAfterFlag(s))
  }

  /** Fourteen fields in the order of their names, each with its own value. */
  lemma StateFields(s: State)
    ensures var fs := StateJson(s).fields;
      && |fs| == 14
      && fs[0] == Field("active_hex_refs", Strings(s.hexRefs)) && fs[1] == Field("active_pins", PinsJson(s.pins))
      && fs[2] == Field("current_objective", Str(s.objective)) && fs[3] == Field("current_summary", Str(s.summary))
      && fs[4] == Field("dropped_refs", LedgerJson(s.dropped)) && fs[5] == Field("epoch", Num(s.epoch))
      && fs[6] == Field("mission", Str(s.mission)) && fs[7] == Field("open_questions", QuestionsJson(s.questions))
      && fs[8] == Field("over_budget", Bool(s.overBudget))
      && fs[9] == Field("recent_decisions", DecisionsJson(s.decisions))
      && fs[10] == Field("retrieval_hints", Strings(s.hints)) && fs[11] == Field("summary_hex", NullOr(s.summaryHex))
      && fs[12] == Field("turn", Num(s.turn)) && fs[13] == Field("unloaded_ledger", NullOr(s.unloadedLedger))
  {
  }

  /** The meter an injected counter induces. */
  function StateMeter(counter: string -> int): Meter {
    (s: State) => counter(Render(StateJson(s)))
  }

  const DEFAULT_COUNTER: string -> int := (text: string) => EstimateTokens(text)

  // ----- the report, for every counter -----

  /** Compaction never costs tokens, and the flag says exactly whether the measured cost is over budget. */
  lemma CompactionNeverCosts(s: State, env: Env)
    ensures var r := EnforceReport(s, env);
      && r.after <= r.before == env.meter(s)
      && (r.overBudget <==> r.after > env.budget)
      && (EnforceState(s, env).overBudget == r.overBudget)
      && (r.reverted ==> r.after == r.before && EnforceState(s, env) == s.(overBudget := true))
      && (r.overBudget && !r.reverted ==> forall k :: 1 <= k <= RUNGS ==> Exhausted(k, EnforceState(s, env), env))
  {
    var r := EnforceReport(s, env);
    var last := Stage(RUNGS, s, env);
    if r.overBudget && !r.reverted {
      forall k | 1 <= k <= RUNGS ensures Exhausted(k, EnforceState(s, env), env) {
        OverBudgetIsIrreducible(s, env, k);
        assert Exhausted(k, last, env);
      }
    }
  }

  // ----- the flag is written after the measurement -----

  lemma {:induction false} StageFlag(k: nat, s: State, env: Env)
    requires k <= RUNGS
    ensures Stage(k, s, env).overBudget == s.overBudget
  {
    if k > 0 {
      StageFlag(k - 1, s, env);
      RungFrame(k, Stage(k - 1, s, env), env);
    }
  }

  lemma FieldsIgnoreFlag(s: State, flag: bool)
    ensures StateJson(s.(overBudget := flag)) ==
            Obj(FieldsBeforeFlag(s) + [Field("over_budget", Bool(flag))] + FieldsAfterFlag(s))
  {
  }

  lemma RenderObj(fields: seq<Field>)
    ensures |Render(Obj(fields))| == |RenderFields(fields)| + 2
  {
  }

  /** Clearing the flag makes the serialised state exactly one character longer. */
  lemma FlagLength(s: State)
    ensures |Render(StateJson(s.(overBudget := false)))| == |Render(StateJson(s.(overBudget := true)))| + 1
  {
    var pre, post := FieldsBeforeFlag(s), FieldsAfterFlag(s);
    FieldsIgnoreFlag(s, false);
    FieldsIgnoreFlag(s, true);
    SwapField(pre, "over_budget", Bool(false), Bool(true), post);
    RenderObj(pre + [Field("over_budget", Bool(false))] + post);
    RenderObj(pre + [Field("over_budget", Bool(true))] + post);
  }

  /**
   Under the default estimator the stored state costs at most one token more than the reported `tokens_after`, and it
   costs that one token exactly when the call cleared a set flag and the measured text filled its last token.
   */
  lemma StoredCost(s: State, budget: int, pointer: Option<string>, spill: Option<string>)
    ensures var env := Env(StateMeter(DEFAULT_COUNTER), budget, pointer, spill);
      var after, stored := EnforceReport(s, env).after, env.meter(EnforceState(s, env));
      && after - 1 <= stored <= after + 1
      && (stored == after + 1 <==>
          s.overBudget && after <= budget && |Render(StateJson(Measured(s, env)))| % CHARS_PER_TOKEN == 0)
  {
    var env := Env(StateMeter(DEFAULT_COUNTER), budget, pointer, spill);
    var m := Measured(s, env);
    StageFlag(RUNGS, s, env);
    FlagLength(m);
    var on, off := Render(StateJson(m.(overBudget := true))), Render(StateJson(m.(overBudget := false)));
    OneMoreCharacter(on, off);
    assert m == m.(overBudget := s.overBudget);
  }

  // ----- a decision's second address, under the default estimator -----

  /** A state that holds these decisions and this ledger, and nothing else. */
  function Bare(decisions: seq<Decision>, dropped: Ledger): State {
    State(1, 0, "", "", "", [], [], [], decisions, [], dropped, None, None, false)
  }

  const NO_ROOM := Env(StateMeter(DEFAULT_COUNTER), 0, None, None)

  lemma NothingFits(s: State)
    ensures !Fits(s, NO_ROOM)
  {
    assert |Render(StateJson(s))| > 0;
  }

  /** With no room, no pointer and no spill, the ladder unloads the one decision under its hex. */
  lemma BareLadder(hex: string, source: string, env: Env)
    requires hex != "" && env.pointer.None? && env.spill.None?
    requires !Fits(Bare([Decision(Some(hex), Some(source), None)], map[]), env)
    requires !Fits(Bare([], map[DecisionKind := [hex]]), env)
    ensures Stage(RUNGS, Bare([Decision(Some(hex), Some(source), None)], map[]), env) ==
            Bare([], map[DecisionKind := [hex]])
  {
    var s, t := Bare([Decision(Some(hex), Some(source), None)], map[]), Bare([], map[DecisionKind := [hex]]);
    assert Stage(0, s, env) == s;
    assert Stage(1, s, env) == s;
    assert Stage(2, s, env) == s;
    assert [] + [hex] == [hex];
    assert UnloadDecision(s) == t && StripTitles(s, env) == s && TrimDecisions(t, env) == t;
    assert Stage(3, s, env) == t;
    assert Stage(4, s, env) == t;
    assert Stage(5, s, env) == t;
    assert Stage(6, s, env) == t;
    assert Stage(7, s, env) == t;
  }

  lemma OneItem(j: Json)
    ensures |Render(Arr([j]))| == |Render(j)| + 2
  {
    assert RenderItems([j]) == Render(j);
  }

  /** One pair of fields in a list. */
  lemma PairLength(k: string, v: string, k': string, v': string)
    ensures |Render(Arr([Obj([Field(k, Str(v)), Field(k', Str(v'))])]))| ==
            |Quote(k)| + |Quote(v)| + |Quote(k')| + |Quote(v')| + 7
  {
    var f, g := Field(k, Str(v)), Field(k', Str(v'));
    FieldsLength(f, [g]);
    FieldsLength(g, []);
    assert [f] + [g] == [f, g] && [g] + [] == [g];
    RenderObj([f, g]);
    OneItem(Obj([f, g]));
  }

  /** One bucket with one ref. */
  lemma BucketLength(k: string, v: string)
    ensures |Render(Obj([Field(k, Arr([Str(v)]))]))| == |Quote(k)| + |Quote(v)| + 5
  {
    var f := Field(k, Arr([Str(v)]));
    FieldsLength(f, []);
    assert [f] + [] == [f];
    RenderObj([f]);
    OneItem(Str(v));
  }

  lemma OneDecisionJson(hex: string, source: string)
    ensures DecisionsJson([Decision(Some(hex), Some(source), None)]) ==
            Arr([Obj([Field("hex_id", Str(hex)), Field("source_ref", Str(source))])])
  {
    var d := Decision(Some(hex), Some(source), None);
    var fields := [Field("hex_id", Str(hex)), Field("source_ref", Str(source))];
    assert fields + [] == fields;
    assert DecisionsJson([d]).items == [DecisionJson(d)];
  }

  lemma OneBucketJson(hex: string)
    ensures LedgerJson(map[DecisionKind := [hex]]) == Obj([Field("decision", Arr([Str(hex)]))])
  {
    assert Strings([hex]).items == [Str(hex)];
  }

  lemma BucketIsShorter(bucket: string, hexKey: string, hex: string, sourceKey: string, source: string)
    requires |bucket| <= |sourceKey| && forall i :: 0 <= i < |bucket| ==> 'a' <= bucket[i] <= 'z'
    ensures |Render(Obj([Field(bucket, Arr([Str(hex)]))]))| <=
            |Render(Arr([Obj([Field(hexKey, Str(hex)), Field(sourceKey, Str(source))])]))|
  {
    PairLength(hexKey, hex, sourceKey, source);
    BucketLength(bucket, hex);
    QuoteLength(bucket);
    QuoteLength(sourceKey);
  }

  /** A filed hex takes less room than the decision it came from. */
  lemma FilingSaves(hex: string, source: string)
    ensures |Render(LedgerJson(map[DecisionKind := [hex]]))| <=
            |Render(DecisionsJson([Decision(Some(hex), Some(source), None)]))|
  {
    OneDecisionJson(hex, source);
    OneBucketJson(hex);
    BucketIsShorter("decision", "hex_id", hex, "source_ref", source);
  }

  lemma EmptyLengths()
    ensures |Render(DecisionsJson([]))| == 2 && |Render(LedgerJson(map[]))| == 2
  {
    assert DecisionsJson([]) == Arr([]) && LedgerJson(map[]) == Obj([]);
  }

  lemma Regroup(a: seq<Field>, x: seq<Field>, b: seq<Field>, c: seq<Field>, d: seq<Field>)
    ensures a + x + b + c + d == a + x + (b + c + d)
  {
  }

  lemma RegroupLast(a: seq<Field>, b: seq<Field>, x: seq<Field>, c: seq<Field>)
    ensures a + b + (x + c) == a + b + x + c
  {
  }

  lemma DroppedLength(s: State, dropped: Ledger)
    ensures |Render(StateJson(s))| - |Render(LedgerJson(s.dropped))| ==
            |Render(StateJson(s.(dropped := dropped)))| - |Render(LedgerJson(dropped))|
  {
    var pre, mid, post := FieldsBeforeDropped(s), FieldsAfterDropped(s), FieldsAfterFlag(s);
    var flag, key := [Field("over_budget", Bool(s.overBudget))], "dropped_refs";
    Regroup(pre, [Field(key, LedgerJson(s.dropped))], mid, flag, post);
    Regroup(pre, [Field(key, LedgerJson(dropped))], mid, flag, post);
    SwapField(pre, key, LedgerJson(s.dropped), LedgerJson(dropped), mid + flag + post);
    RenderObj(StateJson(s).fields);
    RenderObj(StateJson(s.(dropped := dropped)).fields);
  }

  lemma DecisionsLength(s: State, decisions: seq<Decision>)
    ensures |Render(StateJson(s))| - |Render(DecisionsJson(s.decisions))| ==
            |Render(StateJson(s.(decisions := decisions)))| - |Render(DecisionsJson(decisions))|
  {
    var pre, post := FieldsBeforeFlag(s), FieldsAfterDecisions(s);
    var flag, key := [Field("over_budget", Bool(s.overBudget))], "recent_decisions";
    RegroupLast(pre, flag, [Field(key, DecisionsJson(s.decisions))], post);
    RegroupLast(pre, flag, [Field(key, DecisionsJson(decisions))], post);
    SwapField(pre + flag, key, DecisionsJson(s.decisions), DecisionsJson(decisions), post);
    RenderObj(StateJson(s).fields);
    RenderObj(StateJson(s.(decisions := decisions)).fields);
  }

  lemma BareIsCheaper(hex: string, source: string)
    ensures |Render(StateJson(Bare([], map[DecisionKind := [hex]])))| <=
            |Render(StateJson(Bare([Decision(Some(hex), Some(source), None)], map[])))|
  {
    var d, filed: Ledger := Decision(Some(hex), Some(source), None), map[DecisionKind := [hex]];
    DroppedLength(Bare([d], map[]), filed);
    DecisionsLength(Bare([d], filed), []);
    FilingSaves(hex, source);
    EmptyLengths();
  }

  lemma CheaperMeter(s: State, t: State)
    requires |Render(StateJson(t))| <= |Render(StateJson(s))|
    ensures NO_ROOM.meter(t) <= NO_ROOM.meter(s)
  {
  }

  /** What is left of a bare state shows only the hex. */
  lemma FiledShowsHex(hex: string, source: string, flag: bool)
    requires source != hex
    ensures var t := Bare([], map[DecisionKind := [hex]]).(overBudget := flag);
      Reachable(t, map[], Address(DecisionKind, hex)) && !SourceReachable(t, map[], source)
  {
  }

  /**
   Under the default estimator, a decision with a hex and another source in a state with no room: the call does not
   revert, the hex is filed, and the source is nowhere.
   */
  lemma SourceBesideHexIsLost(hex: string, source: string)
    requires hex != "" && source != hex
    ensures var s := Bare([Decision(Some(hex), Some(source), None)], map[]);
      && SourceReachable(s, map[], source) && !EnforceReport(s, NO_ROOM).reverted
      && Reachable(EnforceState(s, NO_ROOM), map[], Address(DecisionKind, hex))
      && !SourceReachable(EnforceState(s, NO_ROOM), map[], source)
  {
    var d := Decision(Some(hex), Some(source), None);
    var s, t := Bare([d], map[]), Bare([], map[DecisionKind := [hex]]);
    assert d in s.decisions;
    NothingFits(s);
    NothingFits(t);
    BareLadder(hex, source, NO_ROOM);
    BareIsCheaper(hex, source);
    CheaperMeter(s, t);
    FiledShowsHex(hex, source, EnforceReport(s, NO_ROOM).overBudget);
  }
}
