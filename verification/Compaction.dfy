/**
 The bounded working set as a value, and the compaction ladder over it (src/hexashard/context.py).

 `State` is what `ActiveState.to_dict` hands out. The token cost of a state is an arbitrary function of that value
 (a `Meter`), because the counter is injected by the caller; nothing in this module assumes the default estimator.
 */
module Compaction {
  import opened Common

  const SUMMARY_HEAD_CHARS := 600
  const QUESTION_HEAD_CHARS := 80
  const ELLIPSIS := " [...]"

  datatype PinView = PinView(pinId: string, key: string, value: string, sourceRef: Option<string>,
                             critical: bool, status: string)
  datatype Question = Question(id: string, text: string, resolved: bool)
  /** `title` is None once the key was removed; a null address is None. */
  datatype Decision = Decision(hexId: Option<string>, sourceRef: Option<string>, title: Option<string>)

  /** The kinds under which compaction files addresses. */
  datatype Kind = DecisionKind | HexKind | PinKind | QuestionKind | SummaryKind

  type Ledger = map<Kind, seq<string>>
  /** Ledger files by name. */
  type Disk = map<string, Ledger>

  datatype State = State(
    epoch: int, turn: int, mission: string, objective: string, summary: string,
    pins: seq<PinView>, questions: seq<Question>, hexRefs: seq<string>,
    decisions: seq<Decision>, hints: seq<string>,
    dropped: Ledger, unloadedLedger: Option<string>, summaryHex: Option<string>, overBudget: bool)

  type Meter = State -> int

  /** The arguments of one `enforce_budget` call other than the state. */
  datatype Env = Env(meter: Meter, budget: int, pointer: Option<string>, spill: Option<string>)

  datatype Report = Report(budget: int, before: int, after: int, overBudget: bool, reverted: bool)

  predicate Fits(s: State, env: Env) {
    env.meter(s) <= env.budget
  }

  // ----- the address ledger -----

  /** `_drop`: file one address under its kind, once; a null address is not filed. */
  function Drop(ledger: Ledger, kind: Kind, ref: Option<string>): Ledger {
    match ref
    case None => ledger
    case Some(r) =>
      var bucket := if kind in ledger then ledger[kind] else [];
      ledger[kind := if r in bucket then bucket else bucket + [r]]
  }

  function DropAll(ledger: Ledger, kind: Kind, refs: seq<string>): Ledger
    decreases |refs|
  {
    if refs == [] then ledger else DropAll(Drop(ledger, kind, Some(refs[0])), kind, refs[1..])
  }

  /** One bucket of the spilled file: the prior refs, then each new ref once. */
  function AppendNew(bucket: seq<string>, refs: seq<string>): seq<string>
    decreases |refs|
  {
    if refs == [] then bucket
    else AppendNew(if refs[0] in bucket then bucket else bucket + [refs[0]], refs[1..])
  }

  function Bucket(ledger: Ledger, kind: Kind): seq<string> {
    if kind in ledger then ledger[kind] else []
  }

  function MergeLedger(prior: Ledger, added: Ledger): Ledger {
    map k | k in prior.Keys + added.Keys :: AppendNew(Bucket(prior, k), Bucket(added, k))
  }

  // ----- text heads -----

  /** The text does not end in whitespace. */
  predicate Stripped(s: string) {
    s == [] || !IsSpace(s[|s| - 1])
  }

  function RStrip(s: string): (r: string)
    ensures r <= s && Stripped(r) && (Stripped(s) ==> r == s)
    ensures forall i :: |r| <= i < |s| ==> IsSpace(s[i])
  {
    if Stripped(s) then s else RStrip(s[..|s| - 1])
  }

  function Head(text: string, chars: nat): (r: string)
    requires chars <= |text|
    ensures |r| <= chars + |ELLIPSIS|
  {
    RStrip(text[..chars]) + ELLIPSIS
  }

  // ----- the rungs -----

  /** Rung 1: hints go oldest first, until the state fits. */
  function TrimHints(s: State, env: Env): State
    decreases |s.hints|
  {
    if s.hints == [] || Fits(s, env) then s else TrimHints(s.(hints := s.hints[1..]), env)
  }

  function UnloadHex(s: State): State
    requires s.hexRefs != []
  {
    s.(hexRefs := s.hexRefs[1..], dropped := Drop(s.dropped, HexKind, Some(s.hexRefs[0])))
  }

  /** Rung 2: hex refs go oldest first into the ledger, until the state fits. */
  function TrimHexRefs(s: State, env: Env): State
    decreases |s.hexRefs|
  {
    if s.hexRefs == [] || Fits(s, env) then s else TrimHexRefs(UnloadHex(s), env)
  }

  /** The address a decision is filed under: its hex when that is a non-empty string, else its source. */
  function DecisionAddress(d: Decision): Option<string> {
    if d.hexId.Some? && d.hexId.value != "" then d.hexId else d.sourceRef
  }

  function Untitled(ds: seq<Decision>): (r: seq<Decision>)
    ensures |r| == |ds|
    ensures forall i {:trigger r[i]} :: 0 <= i < |ds| ==> r[i] == ds[i].(title := None)
  {
    seq(|ds|, i requires 0 <= i < |ds| => ds[i].(title := None))
  }

  function StripTitles(s: State, env: Env): State {
    if !Fits(s, env) && exists d :: d in s.decisions && d.title.Some? then s.(decisions := Untitled(s.decisions)) else s
  }

  function UnloadDecision(s: State): State
    requires s.decisions != []
  {
    s.(decisions := s.decisions[1..], dropped := Drop(s.dropped, DecisionKind, DecisionAddress(s.decisions[0])))
  }

  function TrimDecisions(s: State, env: Env): State
    decreases |s.decisions|
  {
    if s.decisions == [] || Fits(s, env) then s else TrimDecisions(UnloadDecision(s), env)
  }

  /** A pointer counts only when it is a non-empty string. */
  predicate HasPointer(env: Env) {
    env.pointer.Some? && env.pointer.value != ""
  }

  function HeadSummary(s: State, env: Env): State {
    if !Fits(s, env) && |s.summary| > SUMMARY_HEAD_CHARS && HasPointer(env) then
      s.(summary := Head(s.summary, SUMMARY_HEAD_CHARS), dropped := Drop(s.dropped, SummaryKind, env.pointer))
    else s
  }

  function UnloadSummary(s: State, env: Env): State {
    if !Fits(s, env) && s.summary != "" && HasPointer(env) then
      s.(summary := "", dropped := Drop(s.dropped, SummaryKind, env.pointer))
    else s
  }

  function Unresolved(qs: seq<Question>): seq<Question> {
    if qs == [] then []
    else if qs[0].resolved then Unresolved(qs[1..])
    else [qs[0]] + Unresolved(qs[1..])
  }

  function ResolvedIds(qs: seq<Question>): seq<string> {
    if qs == [] then []
    else if qs[0].resolved then [qs[0].id] + ResolvedIds(qs[1..])
    else ResolvedIds(qs[1..])
  }

  function UnloadResolved(s: State, env: Env): State {
    if !Fits(s, env) && exists q :: q in s.questions && q.resolved then
      s.(questions := Unresolved(s.questions), dropped := DropAll(s.dropped, QuestionKind, ResolvedIds(s.questions)))
    else s
  }

  function Criticals(ps: seq<PinView>): seq<PinView> {
    if ps == [] then []
    else if ps[0].critical then [ps[0]] + Criticals(ps[1..])
    else Criticals(ps[1..])
  }

  function OrdinaryIds(ps: seq<PinView>): seq<string> {
    if ps == [] then []
    else if ps[0].critical then OrdinaryIds(ps[1..])
    else [ps[0].pinId] + OrdinaryIds(ps[1..])
  }

  function UnloadPins(s: State, env: Env): State {
    if !Fits(s, env) && exists p :: p in s.pins && !p.critical then
      s.(pins := Criticals(s.pins), dropped := DropAll(s.dropped, PinKind, OrdinaryIds(s.pins)))
    else s
  }

  function CompactText(q: Question): Question {
    if |q.text| > QUESTION_HEAD_CHARS then q.(text := Head(q.text, QUESTION_HEAD_CHARS)) else q
  }

  function CompactTexts(qs: seq<Question>): (r: seq<Question>)
    ensures |r| == |qs|
    ensures forall i {:trigger r[i]} :: 0 <= i < |qs| ==> r[i] == CompactText(qs[i])
  {
    seq(|qs|, i requires 0 <= i < |qs| => CompactText(qs[i]))
  }

  function CompactQuestions(s: State, env: Env): State {
    if !Fits(s, env) && exists q :: q in s.questions && |q.text| > QUESTION_HEAD_CHARS then
      s.(questions := CompactTexts(s.questions))
    else s
  }

  predicate Spills(s: State, env: Env) {
    !Fits(s, env) && s.dropped != map[] && env.spill.Some?
  }

  /** Rung 8, the state's side: the ledger is replaced by a pointer to its file. */
  function SpillState(s: State, env: Env): State {
    if Spills(s, env) then s.(dropped := map[], unloadedLedger := env.spill) else s
  }

  /** Rung 8, the file's side: the ledger is merged into whatever the file already held. */
  function SpillDisk(s: State, disk: Disk, env: Env): Disk {
    if Spills(s, env) then
      var name := env.spill.value;
      disk[name := MergeLedger(if name in disk then disk[name] else map[], s.dropped)]
    else disk
  }

  const RUNGS: nat := 8

  function Rung(k: nat, s: State, env: Env): State
    requires 1 <= k <= RUNGS
  {
    match k
    case 1 => TrimHints(s, env)
    case 2 => TrimHexRefs(s, env)
    case 3 => TrimDecisions(StripTitles(s, env), env)
    case 4 => UnloadSummary(HeadSummary(s, env), env)
    case 5 => UnloadResolved(s, env)
    case 6 => UnloadPins(s, env)
    case 7 => CompactQuestions(s, env)
    case 8 => SpillState(s, env)
  }

  /** The state after the first `k` rungs. */
  function Stage(k: nat, s: State, env: Env): State
    requires k <= RUNGS
    decreases k, s
  {
    if k == 0 then s else Rung(k, Stage(k - 1, s, env), env)
  }

  // ----- the whole call -----

  predicate Reverts(s: State, env: Env) {
    env.meter(Stage(RUNGS, s, env)) > env.meter(s)
  }

  /** The state when `tokens_after` is measured, before the over-budget flag is written. */
  function Measured(s: State, env: Env): State {
    if Fits(s, env) || Reverts(s, env) then s else Stage(RUNGS, s, env)
  }

  function EnforceReport(s: State, env: Env): Report {
    var after := env.meter(Measured(s, env));
    Report(env.budget, env.meter(s), after, after > env.budget, !Fits(s, env) && Reverts(s, env))
  }

  function EnforceState(s: State, env: Env): State {
    Measured(s, env).(overBudget := EnforceReport(s, env).overBudget)
  }

  /** A revert restores the state but not the file. */
  function EnforceDisk(s: State, disk: Disk, env: Env): Disk {
    if Fits(s, env) then disk else SpillDisk(Stage(RUNGS - 1, s, env), disk, env)
  }

  lemma CriticalsAt(ps: seq<PinView>, i: nat)
    requires i < |ps|
    ensures Criticals(ps[i..]) == if ps[i].critical then [ps[i]] + Criticals(ps[i + 1..]) else Criticals(ps[i + 1..])
    ensures OrdinaryIds(ps[i..]) ==
            if ps[i].critical then OrdinaryIds(ps[i + 1..]) else [ps[i].pinId] + OrdinaryIds(ps[i + 1..])
  {
    assert ps[i..][1..] == ps[i + 1..];
  }

  lemma UnresolvedAt(qs: seq<Question>, i: nat)
    requires i < |qs|
    ensures Unresolved(qs[i..]) == if qs[i].resolved then Unresolved(qs[i + 1..]) else [qs[i]] + Unresolved(qs[i + 1..])
    ensures ResolvedIds(qs[i..]) ==
            if qs[i].resolved then [qs[i].id] + ResolvedIds(qs[i + 1..]) else ResolvedIds(qs[i + 1..])
  {
    assert qs[i..][1..] == qs[i + 1..];
  }

  lemma DropAllCons(ledger: Ledger, kind: Kind, ref: string, refs: seq<string>)
    ensures DropAll(ledger, kind, [ref] + refs) == DropAll(Drop(ledger, kind, Some(ref)), kind, refs)
  {
    assert ([ref] + refs)[1..] == refs;
  }

  // ----- the filters keep exactly the elements they say -----

  lemma {:induction false} UnresolvedElements(qs: seq<Question>)
    ensures forall q :: q in Unresolved(qs) <==> q in qs && !q.resolved
    ensures forall q :: q in qs && q.resolved ==> q.id in ResolvedIds(qs)
  {
    if qs != [] {
      UnresolvedElements(qs[1..]);
      assert qs == [qs[0]] + qs[1..];
    }
  }

  lemma {:induction false} CriticalsElements(ps: seq<PinView>)
    ensures forall p :: p in Criticals(ps) <==> p in ps && p.critical
    ensures forall p :: p in ps && !p.critical ==> p.pinId in OrdinaryIds(ps)
  {
    if ps != [] {
      CriticalsElements(ps[1..]);
      assert ps == [ps[0]] + ps[1..];
    }
  }
}
