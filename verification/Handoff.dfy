/** The bounded packet that crosses an epoch boundary: building it, shedding addresses from it, seeding from it. */
module Handoff {
  import opened Common
  import opened Compaction

  const MAX_HANDOFF_HEX_REFS: nat := 24
  const MAX_HANDOFF_HINTS: nat := 3

  /** `decisionsOmitted` is None until the first decision is shed: the key does not exist before that. */
  datatype Packet = Packet(
    mission: string, objective: string, criticalPins: seq<PinView>, pinRefs: seq<string>,
    questions: seq<Question>, decisions: seq<Decision>, decisionsOmitted: Option<int>,
    hexRefs: seq<string>, hexRefsOmitted: int, hints: seq<string>, hintsOmitted: int,
    unloadedLedger: Option<string>, summaryHex: Option<string>)

  type PacketMeter = Packet -> int

  /** What the state had loaded, or the fallback when it had nothing. */
  function SourceRefs(s: State, fallback: seq<string>): seq<string> {
    if s.hexRefs != [] then s.hexRefs else fallback
  }

  function SummaryHint(summaryHex: Option<string>): seq<string> {
    if summaryHex.Some? && summaryHex.value != "" then ["previous epoch summary: " + summaryHex.value] else []
  }

  function BuildHandoff(s: State, fallback: seq<string>, summaryHex: Option<string>): Packet {
    var refs := SourceRefs(s, fallback);
    Packet(
      s.mission, s.objective, Criticals(s.pins), OrdinaryIds(s.pins), Unresolved(s.questions),
      Untitled(s.decisions), None,
      Newest(refs, MAX_HANDOFF_HEX_REFS), |refs| - |Newest(refs, MAX_HANDOFF_HEX_REFS)|,
      SummaryHint(summaryHex) + Newest(s.hints, MAX_HANDOFF_HINTS), |s.hints| - |Newest(s.hints, MAX_HANDOFF_HINTS)|,
      s.unloadedLedger, summaryHex)
  }

  function OmittedDecisions(p: Packet): int {
    if p.decisionsOmitted.Some? then p.decisionsOmitted.value else 0
  }

  function ShedRefs(p: Packet, ceiling: int, meter: PacketMeter): Packet
    decreases |p.hexRefs|
  {
    if meter(p) < ceiling || p.hexRefs == [] then p
    else ShedRefs(ShedRef(p), ceiling, meter)
  }

  function ShedDecisions(p: Packet, ceiling: int, meter: PacketMeter): Packet
    decreases |p.decisions|
  {
    if meter(p) < ceiling || p.decisions == [] then p
    else ShedDecisions(ShedDecision(p), ceiling, meter)
  }

  function Trimmed(p: Packet, ceiling: int, meter: PacketMeter): Packet {
    ShedDecisions(ShedRefs(p, ceiling, meter), ceiling, meter)
  }

  /** The packet with its oldest `n` refs and oldest `m` decisions shed and counted, and nothing else touched. */
  function Cut(p: Packet, n: nat, m: nat): Packet
    requires n <= |p.hexRefs| && m <= |p.decisions|
  {
    p.(hexRefs := p.hexRefs[n..], hexRefsOmitted := p.hexRefsOmitted + n,
       decisions := p.decisions[m..],
       decisionsOmitted := if m == 0 then p.decisionsOmitted else Some(OmittedDecisions(p) + m))
  }

  function ShedRef(p: Packet): Packet
    requires p.hexRefs != []
  {
    p.(hexRefs := p.hexRefs[1..], hexRefsOmitted := p.hexRefsOmitted + 1)
  }

  function ShedDecision(p: Packet): Packet
    requires p.decisions != []
  {
    p.(decisions := p.decisions[1..], decisionsOmitted := Some(OmittedDecisions(p) + 1))
  }

  lemma CutRefStep(p: Packet, j: nat)
    requires j + 1 <= |p.hexRefs|
    ensures Cut(ShedRef(p), j, 0) == Cut(p, j + 1, 0)
  {
    assert p.hexRefs[1..][j..] == p.hexRefs[j + 1..];
  }

  lemma CutDecisionStep(p: Packet, j: nat)
    requires j + 1 <= |p.decisions|
    ensures Cut(ShedDecision(p), 0, j) == Cut(p, 0, j + 1)
  {
    assert p.decisions[1..][j..] == p.decisions[j + 1..];
  }

  lemma {:induction false} ShedRefsShortest(p: Packet, ceiling: int, meter: PacketMeter)
    ensures var r := ShedRefs(p, ceiling, meter); var n := |p.hexRefs| - |r.hexRefs|;
      && 0 <= n && r == Cut(p, n, 0)
      && (meter(r) < ceiling || r.hexRefs == [])
      && forall j :: 0 <= j < n ==> meter(Cut(p, j, 0)) >= ceiling
    decreases |p.hexRefs|
  {
    assert Cut(p, 0, 0) == p;
    if meter(p) >= ceiling && p.hexRefs != [] {
      var next := ShedRef(p);
      var r := ShedRefs(next, ceiling, meter);
      ShedRefsShortest(next, ceiling, meter);
      CutRefStep(p, |next.hexRefs| - |r.hexRefs|);
      forall j | 0 <= j < |p.hexRefs| - |r.hexRefs| ensures meter(Cut(p, j, 0)) >= ceiling {
        if j > 0 { CutRefStep(p, j - 1); }
      }
    }
  }

  lemma {:induction false} ShedDecisionsShortest(p: Packet, ceiling: int, meter: PacketMeter)
    ensures var r := ShedDecisions(p, ceiling, meter); var m := |p.decisions| - |r.decisions|;
      && 0 <= m && r == Cut(p, 0, m)
      && (meter(r) < ceiling || r.decisions == [])
      && forall j :: 0 <= j < m ==> meter(Cut(p, 0, j)) >= ceiling
    decreases |p.decisions|
  {
    assert Cut(p, 0, 0) == p;
    if meter(p) >= ceiling && p.decisions != [] {
      var next := ShedDecision(p);
      var r := ShedDecisions(next, ceiling, meter);
      ShedDecisionsShortest(next, ceiling, meter);
      CutDecisionStep(p, |next.decisions| - |r.decisions|);
      forall j | 0 <= j < |p.decisions| - |r.decisions| ensures meter(Cut(p, 0, j)) >= ceiling {
        if j > 0 { CutDecisionStep(p, j - 1); }
      }
    }
  }

  lemma CutCut(p: Packet, n: nat, m: nat)
    requires n <= |p.hexRefs| && m <= |p.decisions|
    ensures Cut(Cut(p, n, 0), 0, m) == Cut(p, n, m)
  {
  }

  /** `h` is `p` trimmed to `ceiling` by the shortest cut, refs before decisions. */
  ghost predicate IsShortestTrim(p: Packet, ceiling: int, meter: PacketMeter, h: Packet) {
    var n, m := |p.hexRefs| - |h.hexRefs|, |p.decisions| - |h.decisions|;
    && 0 <= n && 0 <= m && h == Cut(p, n, m)
    && (meter(h) < ceiling || (h.hexRefs == [] && h.decisions == []))
    && (forall j :: 0 <= j < n ==> meter(Cut(p, j, 0)) >= ceiling)
    && (m > 0 ==> h.hexRefs == [])
    && (forall j :: 0 <= j < m ==> meter(Cut(p, n, j)) >= ceiling)
  }

  lemma TrimmedIsShortest(p: Packet, ceiling: int, meter: PacketMeter)
    ensures IsShortestTrim(p, ceiling, meter, Trimmed(p, ceiling, meter))
  {
    var r := ShedRefs(p, ceiling, meter);
    ShedRefsShortest(p, ceiling, meter);
    ShedDecisionsShortest(r, ceiling, meter);
    var n := |p.hexRefs| - |r.hexRefs|;
    var h := Trimmed(p, ceiling, meter);
    CutCut(p, n, |p.decisions| - |h.decisions|);
    forall j | 0 <= j < |p.decisions| - |h.decisions| ensures meter(Cut(p, n, j)) >= ceiling {
      CutCut(p, n, j);
    }
  }

  /** What trimming leaves untouched, and how the two lists shrink. */
  lemma TrimmedShape(p: Packet, ceiling: int, meter: PacketMeter)
    ensures var h := Trimmed(p, ceiling, meter);
      && |h.hexRefs| <= |p.hexRefs| && |h.decisions| <= |p.decisions|
      && h == Cut(p, |p.hexRefs| - |h.hexRefs|, |p.decisions| - |h.decisions|)
  {
    TrimmedIsShortest(p, ceiling, meter);
  }

  lemma NewestOfSuffix<T>(xs: seq<T>, limit: nat, n: nat)
    requires n <= |Newest(xs, limit)|
    ensures Newest(xs, limit)[n..] == Newest(xs, |Newest(xs, limit)| - n)
  {
  }

  /** Shed addresses until the packet costs strictly less than the ceiling, or none are left. */
  method TrimHandoff(packet: Packet, ceiling: int, meter: PacketMeter) returns (h: Packet)
    ensures IsShortestTrim(packet, ceiling, meter, h)
    ensures h == Trimmed(packet, ceiling, meter)
  {
    h := packet;
    while meter(h) >= ceiling && h.hexRefs != []
      invariant ShedRefs(h, ceiling, meter) == ShedRefs(packet, ceiling, meter)
      decreases |h.hexRefs|
    {
      h := h.(hexRefs := h.hexRefs[1..], hexRefsOmitted := h.hexRefsOmitted + 1);
    }
    while meter(h) >= ceiling && h.decisions != []
      invariant ShedDecisions(h, ceiling, meter) == Trimmed(packet, ceiling, meter)
      decreases |h.decisions|
    {
      h := h.(decisions := h.decisions[1..], decisionsOmitted := Some(OmittedDecisions(h) + 1));
    }
    TrimmedIsShortest(packet, ceiling, meter);
  }

  lemma TrimCounts(p: Packet, ceiling: int, meter: PacketMeter)
    ensures var h := Trimmed(p, ceiling, meter);
      && |h.hexRefs| <= |p.hexRefs| && h.hexRefs == p.hexRefs[|p.hexRefs| - |h.hexRefs|..]
      && |h.hexRefs| + h.hexRefsOmitted == |p.hexRefs| + p.hexRefsOmitted
      && |h.decisions| <= |p.decisions| && h.decisions == p.decisions[|p.decisions| - |h.decisions|..]
      && |h.decisions| + OmittedDecisions(h) == |p.decisions| + OmittedDecisions(p)
      && h.hints == p.hints && h.hintsOmitted == p.hintsOmitted
  {
    TrimmedShape(p, ceiling, meter);
  }

  /**
   Retained plus omitted is always what the epoch started the handoff with, and what is retained is the newest part.
   */
  lemma HandoffCounts(s: State, fallback: seq<string>, summaryHex: Option<string>, ceiling: int, meter: PacketMeter)
    ensures var h := Trimmed(BuildHandoff(s, fallback, summaryHex), ceiling, meter);
      var refs := SourceRefs(s, fallback);
      && |h.hexRefs| + h.hexRefsOmitted == |refs|
      && h.hexRefs == Newest(refs, |h.hexRefs|)
      && |h.hexRefs| <= MAX_HANDOFF_HEX_REFS
      && |h.decisions| + OmittedDecisions(h) == |s.decisions|
      && h.decisions == Newest(Untitled(s.decisions), |h.decisions|)
      && h.hints == SummaryHint(summaryHex) + Newest(s.hints, MAX_HANDOFF_HINTS)
      && |h.hints| - |SummaryHint(summaryHex)| + h.hintsOmitted == |s.hints|
      && h.summaryHex == summaryHex && h.unloadedLedger == s.unloadedLedger
  {
    var p := BuildHandoff(s, fallback, summaryHex);
    TrimCounts(p, ceiling, meter);
    TrimmedShape(p, ceiling, meter);
    var refs := SourceRefs(s, fallback);
    var h := Trimmed(p, ceiling, meter);
    assert p.hexRefs == Newest(refs, MAX_HANDOFF_HEX_REFS);
    NewestOfSuffix(refs, MAX_HANDOFF_HEX_REFS, |p.hexRefs| - |h.hexRefs|);
  }

  /** The next epoch's state, from the packet and nothing else. */
  function StateFromHandoff(p: Packet, epoch: int): State {
    State(epoch, 0, p.mission, p.objective, "", p.criticalPins, p.questions, p.hexRefs, p.decisions, p.hints,
          DropAll(map[], PinKind, p.pinRefs), p.unloadedLedger, None, false)
  }

  /** A decision reduced to its two addresses. */
  ghost predicate Addresses(d: Decision, was: Decision) {
    d.hexId == was.hexId && d.sourceRef == was.sourceRef && d.title.None?
  }

  /** The next epoch, field by field, from the state before the rotation; `k` refs and `m` decisions are retained. */
  ghost predicate Succeeds(s: State, fallback: seq<string>, summaryHex: Option<string>, t: State) {
    var refs, k, m := if s.hexRefs == [] then fallback else s.hexRefs, |t.hexRefs|, |t.decisions|;
    && t.epoch == s.epoch + 1 && t.turn == 0 && t.mission == s.mission && t.objective == s.objective
    && t.summary == "" && t.summaryHex.None? && !t.overBudget && t.unloadedLedger == s.unloadedLedger
    && (forall p :: p in t.pins <==> p in s.pins && p.critical)
    && (forall q :: q in t.questions <==> q in s.questions && !q.resolved)
    && k <= 24 && k <= |refs| && t.hexRefs == refs[|refs| - k..]
    && m <= |s.decisions| && (forall i :: 0 <= i < m ==> Addresses(t.decisions[i], s.decisions[|s.decisions| - m + i]))
    && t.hints == (if summaryHex.None? || summaryHex.value == "" then []
                   else ["previous epoch summary: " + summaryHex.value]) +
                  (if |s.hints| <= 3 then s.hints else s.hints[|s.hints| - 3..])
  }

  lemma SeedSucceeds(s: State, fallback: seq<string>, summaryHex: Option<string>, ceiling: int, meter: PacketMeter)
    ensures Succeeds(s, fallback, summaryHex,
              StateFromHandoff(Trimmed(BuildHandoff(s, fallback, summaryHex), ceiling, meter), s.epoch + 1))
  {
    var p := BuildHandoff(s, fallback, summaryHex);
    var h := Trimmed(p, ceiling, meter);
    TrimmedShape(p, ceiling, meter);
    HandoffCounts(s, fallback, summaryHex, ceiling, meter);
    CriticalsElements(s.pins);
    UnresolvedElements(s.questions);
    DecisionsCarried(s, h);
  }

  lemma DecisionsCarried(s: State, h: Packet)
    requires |h.decisions| <= |s.decisions| && h.decisions == Newest(Untitled(s.decisions), |h.decisions|)
    ensures var m := |h.decisions|;
      forall i :: 0 <= i < m ==> Addresses(h.decisions[i], s.decisions[|s.decisions| - m + i])
  {
    var m := |h.decisions|;
    forall i | 0 <= i < m ensures Addresses(h.decisions[i], s.decisions[|s.decisions| - m + i]) {
      assert h.decisions[i] == Untitled(s.decisions)[|s.decisions| - m + i];
    }
  }
}
