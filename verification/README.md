# A verified model of DARYL's memory core

DARYL keeps an append-only, hash-chained memory for agents (DSM) and, in front of a much larger project store, a small
bounded working set (HexaShard). This project models the parts of both whose correctness is hardest to see by reading
one function, and proves what they promise over every input and every run.

- **Bounded context** (`Tokens`, `Compaction`, `LadderOrder`, `FirstFit`, `Conservation`, `Metering`, `Handoff`,
  `Epochs`, `ActiveContext`, `Pins`). The eight-rung compaction ladder with its snapshot and revert, against a reference
  that lists every attempt and takes the first that fits; the spilled address ledger, the handoff between epochs, and pin
  reconciliation. The token counter is an arbitrary function of the serialised state, as it is injectable; only
  `StoredCost` and `SourceBesideHexIsLost` use the default estimator.
- **Hash chains** (`ShardVerify`, `KeyHistory`, `HexText`, `Signing`). Verification against a pinned tip and count, the
  key-history chain with its mutable statuses, and signing as a guard over it. A digest is a function passed as a
  parameter; where a claim needs it, it is required to be collision-free and to look like hexadecimal text.
- **Collective memory** (`Collective`, `CollectiveShard`, `AdmittedPushes`, `SyncRuns`, `Lanes`, `TierBudget`, `Calendar`,
  `Digests`, `DigestRuns`, `DigestCap`, `DigestRepeats`). The single writer, with admission inside it, the cached
  sliding-window index, cursor sync, the cross-lane merge, token budgets and rolling digests.
- **Governance** (`Lifecycle`, `Sovereignty`, `Orchestrator`). Caches and lazy indexes over append-only logs, admission
  quotas and terminal states.

Where the source updates an object in place the model has a class, and each of its methods is proved to do what a
function on values does; the theorems are about those functions. I/O outcomes (a write that fails, a seed that does not
decrypt), clocks, fresh keys, trust scores and, outside `AdmittedPushes`, the orchestrator's verdict inside a push are
parameters.

## Where the code and its documentation differ

The model follows the code in each case.

- `context.py` says that anything removed leaves its address behind. A retrieval hint and a decision with neither a hex
  nor a source leave none, a decision with both leaves only the hex (`SourceBesideHexIsLost`, and `SourceSurvivesIff` for
  when a source survives), and a rotation does not carry the in-state ledger: `UnspilledLedgerIsLost` gives the smallest
  example and `LedgerCrossesEpoch` says exactly when the ledger survives.
- `verify.py` documents a count mismatch as a mismatch type; no input produces it (`VerifyShard`).
- `signing.py` says that signatures of a revoked key are no longer trusted. Revocation compares texts while verification
  reads them as bytes, in either case and with spaces, so a revoked key verifies under any spelling but the recorded one
  (`RefusedIffRecordedSpelling`, `UpperCaseVerifies`).
- Admission is documented per agent, its cache per entry hash. A cached answer ignores who asks: a hash allowed for one agent
  lands for every other (`StrangerLands`), and the quota bounds distinct hashes, not landings (`LandingsWithinQuota`).
- Pending windows are documented as those without a digest yet. A roll looks at the newest 10000 digests only, and level 4
  writes new ids for old spans whenever its grid moves, so it can digest an hour twice: `RepeatsIff` says exactly when,
  and `AnHourIsDigestedTwice` gives a run of 521 pushes that does.
- The policy index is documented as reading the full shard. It reads a million entries, and so does a shard's state
  (`CappedIndexAgreesIff` and `RunsKeepLifecycleIff` say exactly when that matters).
- The orchestrator documents a pending verdict. With the default rules the sovereignty rule already denies whatever is
  pending, so no decision is ever pending (`FreshAllowIffAdmissible`); without that rule it is reachable
  (`PendingUnderPermissive`).
- A legacy pin without a count accepts any non-empty suffix of the log (`TipOnlyIffSuffix`), and a list longer than the
  pin is OK without being compared with it (`AheadExtendsIffTipInPlace` says when it really extends the pinned log).
- A reader that falls a full window behind receives nothing, from then on and for ever (`LeftBehind`).
- The source store guards supersession with its own cycle check; chains stay acyclic without it
  (`ReachableStoresSettleIff`).

## Model

| member | source | states |
|---|---|---|
| `Tokens.EstimateTokens` | src/hexashard/tokens.py:28-32 | the least number of four-character tokens that covers the text |
| `Tokens.SwapField` | src/hexashard/tokens.py:35-41 | in canonical serialisation, replacing one field's value changes the length by exactly the difference of the two rendered values |
| `Tokens.OneMoreCharacter` | src/hexashard/tokens.py:28-32 | one more character costs one more token exactly when the text filled its last token |
| `Tokens.EscapeReads` | src/hexashard/tokens.py:35-41 | escaped text reads back as what it was and holds no control character |
| `Tokens.DigitsRead` | src/hexashard/tokens.py:35-41 | a written number reads back as itself, without leading zeros |
| `Tokens.Separators` | src/hexashard/tokens.py:35-41 | lists and objects are written with bare commas and colons |
| `Tokens.RenderLiterals` | src/hexashard/tokens.py:35-41 | how constants, empty lists and objects and a negative number are written |
| `LadderOrder.TrimHintsShortest` | src/hexashard/context.py:222-226 | the hint loop removes the shortest oldest-first prefix that makes the state fit, all hints if none does, and nothing else |
| `LadderOrder.TrimHexRefsShortest` | src/hexashard/context.py:228-234 | the same for hex refs, with every removed ref filed in the ledger |
| `LadderOrder.TrimDecisionsShortest` | src/hexashard/context.py:241-244 | the same for decisions, each removed one filed under its hex, or under its source when the hex is missing or empty |
| `LadderOrder.RungExhausts` | src/hexashard/context.py:222-300 | a rung that leaves the state over budget has nothing left to take; for the question texts, each is short or a compacted head, which another pass would not shorten |
| `LadderOrder.CompactedIsLeast` | src/hexashard/context.py:289-294 | compacting a compacted text again never makes it shorter |
| `LadderOrder.CompactAllTwiceIffSettled` | src/hexashard/context.py:289-294 | compacting all question texts twice is compacting them once if and only if no long text has a stripped 80-character head of 75 to 78 characters |
| `LadderOrder.CompactingTwiceGrows` | src/hexashard/context.py:289-294 | a concrete text that compaction brings to 84 characters, and a second one to 86 |
| `LadderOrder.RungPreserves` | src/hexashard/context.py:222-300 | no later rung refills what an earlier one emptied |
| `LadderOrder.StrictOrder` | src/hexashard/context.py:222-300 | if a rung changed anything, every earlier rung is exhausted in the compacted state (the summary rung when a pointer was supplied) |
| `LadderOrder.OverBudgetIsIrreducible` | src/hexashard/context.py:199-202 | a ladder that ends over budget has exhausted every rung |
| `FirstFit.StageIsFirst` | src/hexashard/context.py:222-300 | the first rungs leave the first fitting state in the list of everything they may try, or the last |
| `FirstFit.EnforceIsFirstFit` | src/hexashard/context.py:204-309 | the whole call against a reference without loops: keep a state that fits, else take the first fitting attempt, else the last, revert if it costs more, and flag what does not fit |
| `FirstFit.HeadIsHead` | src/hexashard/context.py:250-254 | a shortened text is the original up to its last non-space character within the limit, and the mark |
| `FirstFit.TitlesGoFirst` | src/hexashard/context.py:236-244 | a decision is unloaded only if the state without titles, hints and hex refs is still over budget; if that state fits the call leaves exactly it; and once this rung has run no title is left |
| `Conservation.MergeLedgerElements` | src/hexashard/context.py:163-174 | a spilled file holds exactly what it held before and what the ledger held |
| `Conservation.SpillKeeps` | src/hexashard/context.py:296-300 | spilling hides no address: what was loaded, filed or in the pointed file stays reachable |
| `Conservation.StageKeeps` | src/hexashard/context.py:222-294 | no prefix of the ladder hides an address |
| `Conservation.EnforceConserves` | src/hexashard/context.py:189-309 | for every state, counter, budget, pointer and spill choice on one path, every hex ref, decision address (its hex, else its source), question id and pin id reachable before the call is reachable after it, on the early return, the compacted state and the revert alike |
| `Conservation.RungInventsNothing` | src/hexashard/context.py:222-294 | apart from the summary pointer a rung files only what was there |
| `Conservation.EnforceInventsNothing` | src/hexashard/context.py:189-309 | conservation is exact: an address reachable after a call was reachable before it, revert and spill included, unless a state without a pointer spills onto an older file that has it |
| `Conservation.UnloadKeepsSourceIff` | src/hexashard/context.py:241-244 | unloading a decision keeps a source nothing else leads to if and only if its hex is missing, empty or the same text |
| `Conservation.SourceSurvivesIff` | src/hexashard/context.py:241-244 | a source ref survives every call if and only if it is in the ledger or its file, or some loaded decision is filed under it |
| `Conservation.SummaryNeverLost` | src/hexashard/context.py:246-262 | a shortened or unloaded summary has a pointer, and that pointer is reachable afterwards; without one the summary is left whole |
| `Metering.CompactionNeverCosts` | src/hexashard/context.py:208-220 | for every counter `tokens_after` is at most `tokens_before`, the flag means over budget, a revert restores the state, and an unreverted over-budget result is irreducible |
| `Metering.StateFields` | src/hexashard/context.py:79-95 | the serialised state has fourteen fields in the order of their names, each with its own value |
| `Metering.FlagLength` | src/hexashard/context.py:79-95 | clearing the over-budget flag makes the serialised state exactly one character longer |
| `Metering.StoredCost` | src/hexashard/context.py:302-309 | with the default estimator the stored state costs at most one token more than reported, and exactly when that happens |
| `Metering.SourceBesideHexIsLost` | src/hexashard/context.py:241-244 | under the default estimator with budget 0, any decision with a hex and another source: the call does not revert, the hex is filed and the source is unreachable |
| `Handoff.TrimHandoff` | src/hexashard/context.py:400-415 | the packet ends below the ceiling or with both address lists empty, by the shortest oldest-first cut, refs before decisions, counting what was shed and touching nothing else |
| `Handoff.HandoffCounts` | src/hexashard/context.py:378-397 | retained plus omitted equals the original for refs, decisions and hints, and what is retained is the newest part |
| `Handoff.SeedSucceeds` | src/hexashard/context.py:361-436 | the next epoch field by field from the state before: the summary line and the newest three hints, unresolved questions whole, retained decisions with hex and source and no title, critical pins, and every other field fresh or carried |
| `Epochs.RungCore` | src/hexashard/context.py:199-202 | no rung touches the mission, the objective, the critical pins or the ids of unresolved questions |
| `Epochs.RotateCore` | src/hexashard/context.py:361-436 | build, trim and seed carry mission, objective, critical pins and unresolved ids over unchanged, in order |
| `Epochs.FieldWrites` | src/hexashard/context.py:55-77 | the plain field writes of a turn change that field and no other |
| `Epochs.ResolveIds` | src/hexashard/context.py:124-130 | resolving an id removes exactly that id from the unresolved ones |
| `Epochs.EpochSurvival` | src/hexashard/context.py:113-143 | over every run of turns, budgets and rotations the core is what a machine that ignores budgets and rotations would hold |
| `Epochs.RunConserves` | src/hexashard/context.py:145-174 | over every run within an epoch nothing becomes unreachable; a pin id has to be filed to survive a pin sync |
| `Epochs.RunKeepsFiled` | src/hexashard/context.py:145-174 | over every run within an epoch what is in the ledger or its file stays in one of them, pin syncs included |
| `Epochs.FileOutlivesEpochs` | src/hexashard/context.py:163-436 | over every run, rotations included, with one spill path: what is in the pointed file stays in it, pointed at and reachable |
| `Epochs.SeedReaches` | src/hexashard/context.py:418-436 | a seeded epoch reaches exactly what the packet and the carried pointer's file hold |
| `Epochs.RotationReaches` | src/hexashard/context.py:378-436 | across a rotation exactly the newest retained hex refs and decisions, every unresolved question id, every pin id and the pointed file stay reachable |
| `Epochs.SurvivesEveryRotationIff` | src/hexashard/context.py:378-436 | an address survives a rotation under every ceiling and counter if and only if beforehand it is in the pointed file, a loaded pin's id or an unresolved question's id |
| `Epochs.LedgerCrossesEpoch` | src/hexashard/context.py:395-436 | the in-state ledger survives every rotation if and only if each of its addresses is in the pointed file, a loaded pin's id or an unresolved question's id |
| `Epochs.SpilledEpochCrosses` | src/hexashard/context.py:296-436 | a call that ended by spilling, followed by any rotation, leaves every address of the ledger and its file reachable |
| `Epochs.UnspilledLedgerIsLost` | src/hexashard/context.py:395-436 | a concrete state whose unspilled ledger address is unreachable after a rotation |
| `ActiveContext.ActiveState.Restore` | src/hexashard/context.py:156-160 | the state becomes the snapshot |
| `ActiveContext.ActiveState.DropRef` | src/hexashard/context.py:145-150 | files an address once under its kind, and no null address |
| `ActiveContext.ActiveState.SyncPins` | src/hexashard/context.py:113-117 | every live pin, each once, criticals first, replaces the embedded views |
| `ActiveContext.ActiveState.ResolveQuestion` | src/hexashard/context.py:124-127 | every question with that id, and no other, becomes resolved |
| `ActiveContext.ActiveState.NoteDecision` | src/hexashard/context.py:132-133 | appends the decision with its title and addresses |
| `ActiveContext.ActiveState.TouchHex` | src/hexashard/context.py:135-138 | moves the ref to the newest end, adding it when absent |
| `ActiveContext.ActiveState.AddHint` | src/hexashard/context.py:140-143 | moves the hint to the newest end, adding it when absent |
| `ActiveContext.MergeBucket` | src/hexashard/context.py:167-171 | the merged bucket holds exactly the prior refs and the new ones |
| `ActiveContext.SpillLedger` | src/hexashard/context.py:163-174 | the in-state ledger is emptied and the file is the merge of its prior content with it |
| `ActiveContext.EnforceBudget` | src/hexashard/context.py:189-309 | the in-place ladder, its revert, its file and its report are the value-level ones, so conservation and the cost bound hold of the object |
| `ActiveContext.RotateEpoch` | src/hexashard/context.py:361-436 | the new object, field by field from the old one: hints, questions, decisions, refs, pins and pointer carried as the source says, the rest fresh; seeded from the shortest-trimmed packet |
| `Pins.CurrentChainHead` | src/hexashard/store.py:263-273 | follows successors to the end of the chain, a dangling name or a repeated source, and always ends in the store |
| `Pins.PinStore.Reconcile` | src/hexashard/pins.py:87-127 | every pin in place: a live pin with an outdated source goes to the end of the chain and takes over the value a current end declares for its key, else keeps its value for review; a missing source breaks it; others are untouched; and one report line for each touched pin, in order |
| `Pins.PathHead` | src/hexashard/store.py:263-273 | the end of any path of successors that ends is the chain head, and such a path never comes back |
| `Pins.ResolveMeans` | src/hexashard/pins.py:61-76 | the four resolutions, each exactly when |
| `Pins.ValuesAreGrounded` | src/hexashard/pins.py:90-95 | each value afterwards is the old one or the declared value of a current source for that very key, and then the pin resolves as active |
| `Pins.SecondReconcileIdleIffSettles` | src/hexashard/pins.py:97-126 | a second reconciliation changes nothing about a pin if and only if a condition on its chain, checkable beforehand, holds |
| `Pins.EndedChainsSettle` | src/hexashard/pins.py:97-126 | where every chain ends in a source not marked superseded, reconciling twice is reconciling once |
| `Pins.HandMarkedHeadDoesNotSettle` | src/hexashard/store.py:209-233 | a run of four store calls after which a second reconciliation changes a pin from needing review to stale |
| `Pins.ReachableStoresSettleIff` | src/hexashard/store.py:209-233 | over every run of store writes chains stay acyclic, and reconciling twice is reconciling once if and only if no pin is to be moved to a chain end that was marked superseded by hand |
| `Pins.SupersessionAloneSettles` | src/hexashard/store.py:215-233 | where only a supersession marks sources superseded, reconciling twice is reconciling once |
| `ShardVerify.VerifyShard` | src/dsm/verify.py:38-172 | from the events as read: the total and the three counters as cardinalities, OK exactly when every parsed event checks and names the one parsed before it and the pin does not disagree, and every completeness field exactly when |
| `ShardVerify.CountersAreCardinalities` | src/dsm/verify.py:70-99 | the counters count the events that were tampered with, break the chain or verify, each once |
| `ShardVerify.SoundEventsIff` | src/dsm/verify.py:61-99 | soundness of the parsed list is soundness of the events |
| `ShardVerify.ParsedAll` | src/dsm/verify.py:61-67 | where every event parses, that very list is verified |
| `ShardVerify.UnparsedIsIgnored` | src/dsm/verify.py:61-67 | an event that does not parse changes no answer |
| `ShardVerify.CarriedMeans` | src/dsm/verify.py:76-99 | the hash an entry is compared with is that of the last event with a non-empty hash |
| `ShardVerify.TipMeans` | src/dsm/verify.py:101-103 | the observed tip is the hash of the last event that parsed, or nothing |
| `ShardVerify.VerifyHashIff` | src/dsm/verify.py:83-93 | a stored hash is accepted exactly as the versioned or the bare digest |
| `ShardVerify.CountersMeanSound` | src/dsm/verify.py:70-99 | both counters are zero exactly when every hash recomputes and every entry names its predecessor |
| `ShardVerify.SharedPast` | src/dsm/verify.py:76-99 | entries of two chains that share a hash share their whole past, and the observed one cannot sit later than in the well-formed log |
| `ShardVerify.PinnedOkIffSameLog` | src/dsm/verify.py:101-153 | against the pin of a log, a list is accepted as pinned if and only if it equals that log in every hashed field, order and length |
| `ShardVerify.ShorterIsNeverOk` | src/dsm/verify.py:126-130 | no shorter list gets any OK |
| `ShardVerify.TipOnlyIffSuffix` | src/dsm/verify.py:122-144 | a pin without a count accepts exactly the non-empty suffixes of the log |
| `ShardVerify.AheadExtendsIffTipInPlace` | src/dsm/verify.py:131-138 | a sound list ahead of the pin extends the pinned log if and only if the pinned tip sits in the pinned place |
| `ShardVerify.WrittenLogsVerify` | src/dsm/core/storage.py:119-162 | every log built by appends is well formed and accepted against the pin its last append left |
| `KeyHistory.PayloadInjective` | src/dsm/signing.py:46-47 | the colon-joined payload is injective for colon-free keys and hashes although times contain colons |
| `KeyHistory.PayloadFormat` | src/dsm/signing.py:46-47 | the payload text, with the word written for a missing predecessor |
| `KeyHistory.VerifyChain` | src/dsm/signing.py:204-243 | valid exactly when every hashed entry links to its predecessor, else the first bad entry is reported |
| `KeyHistory.SharedRun` | src/dsm/signing.py:204-243 | in any two verifying histories, entries with one hash end hashed runs of equal length with the same keys and creation times |
| `KeyHistory.LastHashBindsHistory` | src/dsm/signing.py:204-243 | two fully hashed verifying histories with one last hash have the same length and the same creations |
| `KeyHistory.RecordKeepsLifecycle` | src/dsm/signing.py:138-170 | of any history, loaded or made here: the recorded key becomes the active one, the chain verifies exactly when it did before, and at most one entry is active unless several were and the newest of them is that key |
| `KeyHistory.RevokeKeepsLifecycle` | src/dsm/signing.py:172-184 | of any history: revoking makes no entry active, and the chain verifies exactly when it did before |
| `KeyHistory.RevocationSticks` | src/dsm/signing.py:186-194 | neither operation clears a revocation, and revoking takes effect exactly on recorded keys |
| `KeyHistory.ActiveKeyMeans` | src/dsm/signing.py:131-136 | the active key is the key of the newest active entry, and is missing exactly when there is none |
| `KeyHistory.History.RecordKey` | src/dsm/signing.py:138-170 | in place: nothing for the newest active key; otherwise every active entry is retired with that time and reason, no other entry changes, and one active entry chained to the last hash is added |
| `KeyHistory.History.RevokeKey` | src/dsm/signing.py:172-184 | in place: exactly the entries of that key are revoked with that time and reason, keeping what they were created with, and reports whether there were any |
| `HexText.RoundTrip` | src/dsm/signing.py:381 | the text a key is recorded under reads back as that key |
| `HexText.CanonicalIffPlain` | src/dsm/signing.py:497-500 | a text that reads as a key is its recorded spelling exactly when it is lower-case digits only |
| `HexText.OthersSpoil` | src/dsm/signing.py:497-500 | a text with a character that is neither a digit nor whitespace does not read |
| `Signing.RunsKeepLifecycle` | src/dsm/signing.py:345-389 | over every run of generating, rotating, revoking and signing: one active entry at most and a verifying chain |
| `Signing.ForcedGenerationSigns` | src/dsm/signing.py:345-389 | after any run, a forced generation gives the drawn key, and signing then succeeds unless that very key was revoked |
| `Signing.SignedStaysSigned` | src/dsm/signing.py:469-486 | a signature that succeeds would succeed again with the same key |
| `Signing.VerifiesIff` | src/dsm/signing.py:492-515 | a signature verifies exactly when both texts read as 32 and 64 bytes and the check succeeds on those |
| `Signing.RevokedForever` | src/dsm/signing.py:469-586 | once revoked, a key text stays revoked in every later state, the key it spells never signs, and no signature presented under that text verifies |
| `Signing.RefusedIffRecordedSpelling` | src/dsm/signing.py:491-586 | in every later state a signature that checks under some text for a revoked key is refused if and only if the text is the recorded spelling |
| `Signing.RevokedKeyVerifiesRespelled` | src/dsm/signing.py:497-586 | every revoked key still verifies under its recorded text after a space |
| `Signing.UpperCaseVerifies` | src/dsm/signing.py:497-586 | a concrete run: a key is generated and revoked, and verifies in upper case |
| `Signing.RevokeThenAnything` | src/dsm/signing.py:538-586 | revoking a recorded key and then doing anything at all, that key never signs and its recorded spelling never verifies again |
| `Signing.RetiredStillVerifies` | src/dsm/signing.py:512-517 | rotation alone never stops a text from verifying what it verified |
| `Signing.AgentSigning.GenerateKeypair` | src/dsm/signing.py:345-389 | a forced or first generation makes the drawn pair the stored and loaded one, otherwise the stored pair stays and is loaded if it can be; the result spells that key and is recorded |
| `Signing.AgentSigning.Revoke` | src/dsm/signing.py:538-562 | revokes exactly the entries of that key, and forgets the loaded pair exactly when it is the revoked one |
| `Signing.AgentSigning.SignEntry` | src/dsm/signing.py:469-486 | the four outcomes in order, and a signature only under a key that is not revoked |
| `Collective.LatestHashMeans` | src/dsm/collective.py:275-278 | the looked-up hash belongs to the agent's last entry in the index, or the agent has none and it is empty |
| `Collective.LastByAgentLookup` | src/dsm/collective.py:178-203 | the map the index loop builds answers that question |
| `Collective.HashesDistinct` | src/dsm/core/storage.py:122-137 | in a chained log no two entries share a hash |
| `Collective.PushOneKeeps` | src/dsm/collective.py:327-381 | one push keeps the hash chain, and each projection names the same agent's latest projection among the newest window entries |
| `Collective.PushAllKeeps` | src/dsm/collective.py:324-383 | every input lands or is rejected, the log only grows by what lands, and both chains are kept |
| `Collective.PushAllContent` | src/dsm/collective.py:334-377 | what a push adds is exactly its landing inputs' projections, in order, field by field |
| `Collective.RejectionsAre` | src/dsm/collective.py:328-381 | the rejected list has one line for each refused or unwritten input, in order, with its reason |
| `Collective.FilteredSelects` | src/dsm/collective.py:206-216 | a filter keeps, in order, exactly the entries of the agent and the type asked for |
| `Collective.RecentSelects` | src/dsm/collective.py:206-216 | recent gives the newest entries asked for, newest first, all of them or the limit |
| `CollectiveShard.Shard.EnsureIndex` | src/dsm/collective.py:172-204 | the cached index and per-agent map are those of a fresh rebuild |
| `CollectiveShard.Shard.LastHashForAgent` | src/dsm/collective.py:275-278 | the agent's latest hash in the current window, even right after an invalidation |
| `CollectiveShard.Shard.Since` | src/dsm/collective.py:252-262 | the index entries after the cursor |
| `CollectiveShard.Shard.RecentEntries` | src/dsm/collective.py:206-216 | newest first, filtered, cut |
| `CollectiveShard.SyncEngine.Push` | src/dsm/collective.py:307-383 | the log becomes the value-level push, admitted lists the new hashes in order, rejected lists the reasons in order, and the cache stays a rebuild |
| `CollectiveShard.SyncEngine.Pull` | src/dsm/collective.py:385-424 | reports the number of entries seen and the hash of the last of them, or the cursor when there is none; without a cursor, of the newest hundred, newest first |
| `AdmittedPushes.LandsIff` | src/dsm/collective.py:327-381 | with the orchestrator inside, an offer lands if and only if it can be written and its hash was allowed before, or is undecided and admissible now |
| `AdmittedPushes.LandingsWithinQuota` | src/dsm/collective.py:327-381 | over every run at most 100 distinct source hashes land on the admissions of one agent, and each landed hash was allowed once |
| `AdmittedPushes.AllowedOnceLandsForAnyone` | src/dsm/orchestrator.py:262-266 | a hash allowed once lands again for any agent and owner, without quota |
| `AdmittedPushes.RepeatsLandWithoutBound` | src/dsm/orchestrator.py:262-266 | offers of one allowed hash land any number of times on one admission |
| `AdmittedPushes.StrangerLands` | src/dsm/orchestrator.py:262-266 | a concrete run in which an agent no policy names lands an entry another agent was allowed |
| `SyncRuns.PullDelivers` | src/dsm/collective.py:252-262 | a pull delivers exactly the rest of the log while the cursor is in the window, and nothing otherwise |
| `SyncRuns.PushIsGrowth` | src/dsm/collective.py:307-383 | every push is a lawful growth of the log, so interleavings of pushes and pulls are lawful runs |
| `SyncRuns.ExactlyOnce` | src/dsm/collective.py:385-424 | in every timely run the delivered segments concatenate to the contiguous log after the starting cursor, no gap and no duplicate |
| `SyncRuns.LeftBehind` | src/dsm/collective.py:252-262 | a cursor that has left the window never receives anything again |
| `SyncRuns.CompleteIffTimely` | src/dsm/collective.py:385-424 | a run ending in a pull delivers everything if and only if fewer than a window of entries arrived before each pull |
| `Lanes.SortElements` | src/dsm/lanes.py:246-247 | sorting permutes the gathered entries |
| `Lanes.SortSorted` | src/dsm/lanes.py:246-247 | the sorted list is descending in time |
| `Lanes.CutSortCut` | src/dsm/lanes.py:240-248 | cutting each lane, sorting and cutting again gives the very list that sorting everything and cutting once gives |
| `Lanes.LaneRecentIsTopK` | src/dsm/lanes.py:216-248 | descending, of length min(limit, total), drawn from the lane windows, and nothing omitted is newer than anything included |
| `Lanes.RecentAcross` | src/dsm/lanes.py:240-248 | the gathered, sorted and cut list over all lanes, leaving every window as it was |
| `Lanes.LaneGroup.RegisterLane` | src/dsm/lanes.py:133-152 | idempotent: a second registration keeps the first lane; a new lane reads the given storage through the given window |
| `Lanes.LaneGroup.Recent` | src/dsm/lanes.py:235-248 | one agent's lane, a missing lane reported, or the merged view |
| `TierBudget.TierCost` | src/dsm/collective.py:101-104 | the cost of each tier, unknown ones costing like the full one |
| `TierBudget.TiersRefine` | src/dsm/collective.py:55-99 | each tier adds fields and keeps the ones below |
| `TierBudget.RecentAtTier` | src/dsm/collective.py:234-250 | the highest tier not above the request at which all entries fit, else the newest entries that fit at tier 0, never fewer than one and never fewer than would fit |
| `TierBudget.ReadWithDigests` | src/dsm/collective.py:742-816 | a newest-first maximal run of recent entries, then an oldest-first run of digests split by level, using less than the budget plus 80 |
| `TierBudget.SinceTimeSelects` | src/dsm/collective.py:746 | the entries considered are exactly those from that time on, in order |
| `TierBudget.OfLevelSelects` | src/dsm/collective.py:785-795 | the digests returned for a level are exactly those of that level, in order |
| `Digests.PendingWindows` | src/dsm/collective.py:643-696 | the walks find the pending windows of all four levels |
| `Calendar.NewYear` | src/dsm/collective.py:671-673 | the month that holds a New Year's midnight starts at it, for every year |
| `Calendar.DaysBeforeIs` | src/dsm/collective.py:671-673 | the days before a year by the Gregorian leap rule |
| `Calendar.MonthTable` | src/dsm/collective.py:671-673 | the lengths of the months |
| `Digests.PendingIffProper` | src/dsm/collective.py:658-694 | a window is pending if and only if it is on its level's present grid, closed, undigested and not empty |
| `Digests.PendingDistinct` | src/dsm/collective.py:658-694 | no window is pending twice |
| `Digests.PendingComplete` | src/dsm/collective.py:658-696 | at each level the closed window of every indexed entry is pending unless already digested |
| `Digests.Digester.RollNow` | src/dsm/collective.py:698-730 | appends one digest per due window of the wanted levels (of all four by default), in order |
| `DigestRuns.SourcesExact` | src/dsm/collective.py:547-565 | the sources of a digest are exactly the hashes of the indexed entries between its two ends, both included |
| `DigestRuns.SourcesInOrder` | src/dsm/collective.py:563-565 | sources keep the order of the index, on which their hash depends |
| `DigestRuns.OnlyLevelsInOrder` | src/dsm/collective.py:712-714 | choosing levels keeps the order of the pending windows |
| `DigestRuns.RepeatsIff` | src/dsm/collective.py:630-694 | a roll digests a window again if and only if its stored digest is past the newest 10000 and the window is closed, of a chosen level, on today's grid and holds an indexed entry |
| `DigestRuns.RunsKeepDigestsIff` | src/dsm/collective.py:630-730 | over every timed run of rolls of any levels and any reference times: no window gets two digests if and only if no roll forgets one that way |
| `DigestRuns.PromptRunsSound` | src/dsm/collective.py:540-730 | over every run whose rolls are not ahead of the clock, every digest is of a closed window, was made for an entry, and counts all indexed entries of its window |
| `DigestRuns.FreshRunsOneDigestIff` | src/dsm/collective.py:698-730 | the same from an empty collective |
| `DigestRepeats.SpreadRunForgets` | src/dsm/collective.py:621-730 | for every schedule of 521 pushes whose first 21 open months of different phases and whose others are 60 days apart, the run of default rolls forgets a digest whose window it wants |
| `DigestRepeats.AnHourIsDigestedTwice` | src/dsm/collective.py:621-730 | from an empty collective at the default width: entries on New Year of years 1 to 20 and 22 and then every 60 days, with default rolls at the present time, leave two digests with one id |
| `DigestCap.FewAfter` | src/dsm/collective.py:630-641 | after a digest whose window is still indexed there are, per entry of two index widths less one, at most three hourly, daily or weekly digests and at most thirty monthly ones |
| `DigestCap.ReadIsEnough` | src/dsm/collective.py:630-641 | so a roll forgets nothing while the shard, all four levels counted, is within the cap, or few of the digests read are monthly, or the index has at most 152 entries |
| `DigestCap.NarrowRunsRemember` | src/dsm/collective.py:630-730 | runs that never feel the cap however much they store: an index of at most 152 entries, or of at most 1667 (the default is 500) with level 4 left out |
| `DigestRuns.RollCovers` | src/dsm/collective.py:540-565 | after a roll each indexed entry of a closed window is among the sources of that window's digest, at each chosen level |
| `DigestRuns.OneDigestPerTime` | src/dsm/collective.py:547-550 | below level 4, a time lies in two digests of one level only as their shared edge |
| `DigestRuns.RollTwiceIff` | src/dsm/collective.py:679-692 | rolling again for the same time creates nothing if and only if the grown shard forgets nothing |
| `Lifecycle.ScanRegistry` | src/dsm/lifecycle.py:123-137 | the scan gives the target of the shard's last transition, active if there is none |
| `Lifecycle.StateOfMeans` | src/dsm/lifecycle.py:115-140 | a looked-up state is the replay of the whole registry if and only if the shard is not forgotten: uncached, with a past that lies entirely before the million entries read |
| `Lifecycle.RunsKeepLifecycleIff` | src/dsm/lifecycle.py:115-288 | from any lawful registry, after any calls over any shards, every cached state is the replay and each shard's transitions are a prefix of active, draining, sealed, archived, if and only if no call was about a forgotten shard |
| `Lifecycle.EnoughRemembers` | src/dsm/lifecycle.py:115-140 | an instance that wrote the registry itself, or whose registry stays within the cap, never meets a forgotten shard |
| `Lifecycle.FirstOfTooManyIsForgotten` | src/dsm/lifecycle.py:123-140 | a lawful registry of a million and one drained shards whose first one a new instance takes for active |
| `Lifecycle.NoWayBack` | src/dsm/lifecycle.py:47-53 | no run without a call about a forgotten shard takes a shard back, and archived is terminal |
| `Lifecycle.DeepVerify` | src/dsm/lifecycle.py:316-333 | passes exactly when every link holds, else reports the first break |
| `Lifecycle.ShardLifecycle.State` | src/dsm/lifecycle.py:115-140 | the looked-up state, cached; it is the replay of the whole registry exactly when the shard is not forgotten |
| `Lifecycle.ShardLifecycle.DrainShard` | src/dsm/lifecycle.py:183-212 | drains exactly an active shard: the transition is in the registry and the cache exactly when the outcome is done |
| `Lifecycle.ShardLifecycle.SealShard` | src/dsm/lifecycle.py:214-259 | drains an active shard first, then seals a draining one whose tip has a hash, with the exact outcome in every case and exactly the transitions it made in the registry |
| `Lifecycle.ShardLifecycle.ArchiveShard` | src/dsm/lifecycle.py:261-288 | archives exactly a sealed shard: the transition is in the registry and the cache exactly when the outcome is done |
| `Sovereignty.ActiveIffLastIsSet` | src/dsm/sovereignty.py:166-211 | a policy is active exactly when its owner's last event is a set, and is that event's policy; the empty owner never has one |
| `Sovereignty.CappedIndexAgreesIff` | src/dsm/sovereignty.py:166-185 | the index never grants a policy the whole log does not, and agrees with the whole log if and only if the owner's policy was not set before the million entries read |
| `Sovereignty.OldPolicyIsForgotten` | src/dsm/sovereignty.py:166-185 | a concrete log whose active policy the index does not know |
| `Sovereignty.AllowsMeans` | src/dsm/sovereignty.py:350-413 | exactly when the answer is deny and exactly when it is pending, and the reason of the first check that fails |
| `Sovereignty.SovereigntyPolicy.EnsureIndex` | src/dsm/sovereignty.py:166-211 | the index is the replay of the newest million entries of the log |
| `Sovereignty.SovereigntyPolicy.Set` | src/dsm/sovereignty.py:217-269 | refuses exactly a policy without agents or types, with a blank name or with a trust outside 0 to 1, without writing; otherwise makes it the owner's active one |
| `Sovereignty.SovereigntyPolicy.Revoke` | src/dsm/sovereignty.py:271-300 | the owner has no active policy afterwards |
| `Sovereignty.SovereigntyPolicy.GetPolicy` | src/dsm/sovereignty.py:306-326 | the active policy, present exactly when the owner's last event among those read is a set; exactly when it is also the whole log's answer |
| `Orchestrator.FreshAllowIffAdmissible` | src/dsm/orchestrator.py:86-185 | with the default rules a fresh decision allows exactly the admissible: active policy, whitelist, both trust thresholds, a type allowed without approval, quota left, no self-reference; and it is never pending |
| `Orchestrator.PendingUnderPermissive` | src/dsm/orchestrator.py:285-288 | with the permissive rules pending appears exactly when the policy asks for approval |
| `Orchestrator.FirstFailureMeans` | src/dsm/orchestrator.py:277-283 | the rule reported is the first that fails |
| `Orchestrator.RunsKeepQuota` | src/dsm/orchestrator.py:255-312 | over every run no agent has more than 100 fresh allows, the counter is the number of its allows in the audit, and each non-empty hash is decided once |
| `Orchestrator.DecisionsAreFinal` | src/dsm/orchestrator.py:262-266 | a decided non-empty hash gets the same answer for ever, from anyone, and uses no quota |
| `Orchestrator.NeutralOrchestrator.BuildContext` | src/dsm/orchestrator.py:233-253 | trust, the policy's answer from the replayed log, and the agent's admissions so far |
| `Orchestrator.NeutralOrchestrator.Evaluate` | src/dsm/orchestrator.py:277-283 | the first rule that fails, in order |
| `Orchestrator.NeutralOrchestrator.AdmitEntry` | src/dsm/orchestrator.py:255-312 | the answer, the audit, the counters and the cache of the value-level step |

## Left out

- File and JSON input and output, atomic replacement, gzip and locking: logs and ledger files are values.
- SHA-256, Ed25519, key derivation and seed migration: a digest and a signature check are parameters.
- Multi-process interleavings: the source promises a single writer, and its caches rely on it.
- Report texts: `steps`, `detail`, `reason` and `coverage` strings are not modelled, except where a reason is returned to the caller of a push.
- Handoff.TrimHandoff: returns the trimmed packet as a value; that the source edits the caller's dictionary in place is not captured.
- Aliasing of question, pin and decision records between an old state, its handoff and the seeded state: records are values.
- Conservation.EnforceConserves: assumes one spill path per project, as `project.py` passes; with two paths a pointer would forget the first file.
- DigestRuns.RollCovers: assumes that no earlier roll was ahead of the clock; a digest made early misses what arrives later.
- DigestRuns.OneDigestPerTime: says nothing of level 4, whose windows overlap once their grid has moved.
- A digest whose append fails: it is reported as created and made again by the next roll.
- Key events, agents and success rates inside a digest: single-pass aggregation.
- Digest ids: modelled as level and start; their text form is a four-digit-year timestamp.
- Collective entries whose content does not parse: the single writer only writes content that does.
- A negative `limit` or a window of zero entries on a segmented shard, which still reads one.
- `pull` without a cursor as a sync start: it returns the oldest of the newest hundred as the last hash.
- Schema validation when a key-history file is loaded, and the `key_status` text returned beside a verification.
- Entries whose canonical form cannot be computed: the source counts them as tampered, like a hash that differs.
- Type errors in a policy dictionary: policies are typed, and the range and non-emptiness checks are kept.
- Distillation, merge entries, lane tips, lifecycle triggers, attestations, receipts, witnesses and the retrieval side: single-pass or recompute-and-compare code.
