# Buildplane trust kernels in Dafny

A model of the deterministic kernels that Buildplane's trust decisions rest on, with proofs of what they
promise. Verify it with `dafny verify dfyconfig.toml`.

- **Release campaign verifier** (`Json*`, `Tape*`, `Campaign*`, `Release*`): the duplicate-key scan of a bundle, its
  canonical printing, hash-rooted tape checkpoints, the events a campaign may spend once, the report over
  provider/tier groups and the release decision.
- **Immutable evidence store** (`Evidence*`, `OutputChecks`): a lock-free publication protocol for any number of
  processes (temporary file, hard link, re-read, compare, unlink) with crashes and failures at any step, and the two
  operations that build content-addressed blobs and write-once identity bindings on it.
- **Recovery projection** (`Heartbeats`, `Recovery*`, `FreshStart`, `U64Decimal`): the parser of a dispatch's native
  recovery state, and the fresh-start gates that rely on it.
- **Task numbers** (`Task*`): allocation under a mutation lock, with crashes, failures, deletions and stale-lock removal.
- **Loop reducer** (`LoopSupervisor`).

Loops and mutated objects of the source are methods and classes here, each proved against a specification function;
pure code is functions and lemmas. Exceptions are a missing result. Hashing, signature checks, canonical digests of
typed bodies and timestamp reading are function-valued fields of a host datatype; freedom from hash collisions is a
hypothesis only where a lemma states it. That distinct records have distinct encodings is one in
`EvidenceStore.ResultHasInput` and in `EvidenceBindings`; `EvidenceConflict` builds its run for hosts without
collisions. Time, random names, inode numbers, failures and the sizes of partial reads and writes are choices of the
environment; string collation is a parameter.

## Findings

- The index of the duplicate-key scan can end one past the text: the digits of a unicode escape are read with an
  increment before the end test (`JsonScannerMeaning.CutEscapePassesEnd`). A string token does this exactly when the
  text cuts one of its escapes short (`OverrunMeaning`), and a whole text exactly when it is a well-formed prefix of
  open containers followed by such a string (`JsonOverrun.OverrunsExactly`). A text that does not end inside an escape
  never does (`ScanStops`). The scan rejects such a text in any case.
- The report does not always ignore trial order. A group takes the provider and tier of its first trial, which matters
  when names contain the key separator (`AmbiguityMatters`). Groups are sorted with `localeCompare`, which can tie
  distinct keys, such as canonically equivalent spellings, and then keeps arrival order (`TiesMatter`). Order is ignored
  exactly when neither happens (`OrderFreeExactly`). The campaign's slash-free names rule out the first, not the second.
- A reader of the evidence store may refuse a record that never changed, because a concurrent unlink moves its
  change time (`RefusalReached`); it does so exactly then, or when the record is over the bound (`ReadRefusedExactly`).
- Two evidence artifacts can stay bound for one run and action. A result operation binds its request before its action,
  so a second result under another request binds its own evidence and only then fails on the action binding
  (`TwoEvidencesBound`). Action bindings alone are unique (`OneEvidencePerAction`); all result bindings name one
  evidence exactly when at most one request was bound (`OneEvidenceExactly`), which callers ensure by reporting a run
  and action under one request only (`OneRequestSuffices`).
- A write over the record bound publishes its file and then refuses it on re-reading: `Directory.Publish` leaves the
  path holding the bytes although it reports failure.
- The last loop of the baseline parser and the count re-check of the checkpoint resolver can never fire
  (`CampaignPolicy.ParseBaselines`, `TapeCommitment.ResolveNeedsOnlyOneMatch`).
- Request event references are not checked for uniqueness, so claims are tied to requests through action ids
  (`RecoveryChain.ClaimsMapInjectively`).

## Model

| member | source | states |
|---|---|---|
| ReleaseGate.SelectGoverned | eval/trust-spine-release-gate.ts:111-131 | rejects exactly the lists that hold an invalid trial; otherwise returns the governed trials in order |
| ReleaseGate.GroupGovernedTrials | eval/trust-spine-release-gate.ts:250-299 | one pass over nested maps refuses exactly the lists in which two trials claim one group, task and trial number, and otherwise files every trial under its group |
| ReleaseGate.ComputeTrustSpineEvaluationReport | eval/trust-spine-release-gate.ts:111-131 | the loops compute the specified report under the host's collation, or nothing exactly when the source throws |
| ReleaseRefusals.ReportExists | eval/trust-spine-release-gate.ts:386-424 | there is a report exactly when every trial is named, numbered 1, 2 or 3 and without a negative figure, and no two governed trials claim one group key, task and trial number |
| ReleaseReport.GroupsPartitionTrials | eval/trust-spine-release-gate.ts:111-131 | the groups' trial counts sum to the governed count, and governed plus raw is the whole list |
| ReleaseReport.RawTrialsIgnored | eval/trust-spine-release-gate.ts:111-131 | the groups depend on the governed trials alone |
| ReleaseReport.RatesMeaning | eval/trust-spine-release-gate.ts:301-353 | pass@1, pass@3 and pass-all-3 are the shares of the group's tasks whose first trial, some trial, and all three trials passed |
| ReleaseFigures.GroupFigures | eval/trust-spine-release-gate.ts:301-353 | every field of every reported group is the count, total, mean or share of the trials filed under its key |
| ReleaseReport.ReportRatesOrdered | eval/trust-spine-release-gate.ts:301-353 | in every group of every report pass-all-3 <= pass@1 <= pass@3 <= 1 |
| ReleaseReport.ReportLookup | eval/trust-spine-release-gate.ts:301-353 | looking a key up in a report gives the figures of the trials filed under it, or nothing when there are none |
| ReleaseOrder.GroupsOrderFree | eval/trust-spine-release-gate.ts:111-131 | under any collation, every permutation of the trials gives the same counts and the same groups with the same figures, provided no two provider/tier pairs share a key |
| ReleaseOrder.OrderIgnored | eval/trust-spine-release-gate.ts:111-131 | for every total preorder as collation, every permutation of the trials gives the same report, order of groups included, provided no two pairs share a key and no two keys tie |
| ReleaseOrder.AmbiguityMatters | eval/trust-spine-release-gate.ts:250-299 | if two pairs share a key, some permutation of the trials gives a different report |
| ReleaseOrder.TiesMatter | eval/trust-spine-release-gate.ts:124-129 | if the collation ties two keys, the stable sort keeps arrival order and some permutation of the trials gives a different report |
| ReleaseOrder.OrderFreeExactly | eval/trust-spine-release-gate.ts:111-131 | every permutation gives the same report exactly when no two pairs share a key and the collation ties no two keys |
| ReleaseDecision.EvaluateTrustSpineReleaseGate | eval/trust-spine-release-gate.ts:133-248 | the pushes to the blocker list and the moving cohort reference compute the specified walk over the expected pairs, or nothing exactly when the input is invalid; `BlockersExplained`, `BlockersInPairOrder` and `ReadyMeansReleasable` say what that walk is on the input's own fields |
| ReleaseRefusals.InputExactly | eval/trust-spine-release-gate.ts:426-480 | an input is valid exactly when it asks for at least one task, names a provider and a tier, and its allowance, if given, and every baseline rate lie between zero and one |
| ReleaseDecision.CheckPairs | eval/trust-spine-release-gate.ts:159-242 | the nested provider and tier loops visit the pairs in order |
| ReleaseDecision.CheckRow | eval/trust-spine-release-gate.ts:160-241 | one provider with every tier extends the walk by that row |
| ReleaseDecision.CheckGroup | eval/trust-spine-release-gate.ts:180-240 | what was listed stays; the blockers added are exactly those the group gives reason for (coverage, completeness, safety counters, recovery, baseline, regressions), each once and in source order |
| ReleaseDecision.CohortMismatches | eval/trust-spine-release-gate.ts:355-371 | nothing is reported exactly when both lists name the same tasks |
| ReleaseDecision.WalkSound | eval/trust-spine-release-gate.ts:133-248 | no blocker means every visited pair passes and all share the reference cohort |
| ReleaseDecision.WalkComplete | eval/trust-spine-release-gate.ts:133-248 | if every pair passes against one cohort and the global invariants hold, no blocker is left |
| ReleaseBlockers.BlockersExplained | eval/trust-spine-release-gate.ts:133-248 | a blocker is listed exactly when the input's own fields or the group of an expected pair give reason for it: a false invariant, an unresolved check, a missing group, too few or incomplete tasks, unsafe trials, failed recovery, a missing baseline, a rate under the pair's baseline less the allowance, or a cohort that differs from the first group's |
| ReleaseBlockers.BlockersInPairOrder | eval/trust-spine-release-gate.ts:159-242 | the blockers of the expected pairs follow those of the global invariants in the order of the pairs, each pair's in source order |
| ReleaseMeaning.KeyNamesOnePair | eval/trust-spine-release-gate.ts:379-384 | a slash-joined key names one provider and one tier when the names hold no slash |
| ReleaseMeaning.ReadyMeansReleasable | eval/trust-spine-release-gate.ts:111-371 | for slash-free names `ready` holds exactly when the trial list itself shows, for every expected pair, all three trials of every task of one cohort of at least the minimum size, clean trials, and wins that reach the pair's own baseline (the global one only for a single pair) less the given allowance or 0.05, and the global invariants hold |
| Tape.VerifyTapeCheckpointChain | eval/trust-spine-release-gate-cli.ts:1495-1527 | comparing neighbours only accepts exactly the lists in which checkpoint k has index k and links to checkpoint k-1 |
| Tape.ReadEvents | eval/trust-spine-release-gate-cli.ts:1139-1180 | the reading loop succeeds exactly when every stored event verifies, no id repeats and every checkpoint parses |
| Tape.VerifyCheckpoints | eval/trust-spine-release-gate-cli.ts:1182-1187 | every checkpoint's parent, boundary event, count and root hash are checked against the events it covers |
| Tape.VerifySignedTape | eval/trust-spine-release-gate-cli.ts:1139-1194 | a tape is returned exactly when it is accepted, and then with its verified events and checkpoints |
| TapeRecords.StoredExactly | eval/trust-spine-release-gate-cli.ts:1206-1308 | a stored event is read as an event exactly when its bytes decode to it, it is of the run, its id and hash are the recorded ones, and its signature verifies under the first key pinned for its signer and role |
| TapeRecords.CheckpointExactly | eval/trust-spine-release-gate-cli.ts:1375-1454 | a checkpoint event is read exactly when it is of its own run, over at least one event, with a digest as root and the linear algorithm; every field is the recorded one |
| TapeRecords.SoundExactly | eval/trust-spine-release-gate-cli.ts:1456-1493 | a checkpoint holds exactly when the non-checkpoint events up to its boundary, each once in ascending order of ids, end at the boundary, which is its parent, are as many as it counts, and hash to its root |
| TapeRecords.TapeExactly | eval/trust-spine-release-gate-cli.ts:1139-1194 | a tape export is accepted as a signed tape exactly when every stored event is read as its event, no id repeats, the checkpoints are those of its checkpoint events in order, each is backed by the events it covers, and they form one chain from index 0 |
| TapeCommitment.ResolveNeedsOnlyOneMatch | eval/trust-spine-release-gate-cli.ts:1529-1561 | after verification the resolver succeeds exactly when one checkpoint matches: its count re-check never fires |
| TapeCommitment.ResolvedMeaning | eval/trust-spine-release-gate-cli.ts:1529-1561 | the resolved map has the declared size and holds only non-checkpoint events of the run up to the boundary, each under its own id |
| TapeCommitment.ResolvedHasAll | eval/trust-spine-release-gate-cli.ts:1529-1561 | every non-checkpoint event up to the boundary is in the resolved map |
| TapeRecords.ResolvesExactly | eval/trust-spine-release-gate-cli.ts:1529-1561 | in an accepted tape a declared checkpoint resolves exactly when one checkpoint is the declared one, and to the map of the non-checkpoint events up to its boundary |
| TapeCommitment.EventIsSigned | eval/trust-spine-release-gate-cli.ts:1206-1308 | every event of an accepted tape decodes from stored bytes that hash to its event hash and whose signature verifies under a key pinned for its role |
| TapeCommitment.SmallerCoverIsPrefix | eval/trust-spine-release-gate-cli.ts:1456-1493 | the cover of a smaller boundary is a prefix of the cover of a larger one |
| TapeCommitment.JoinInjective | eval/trust-spine-release-gate-cli.ts:1482-1488 | joining fixed-form digests with newlines is injective |
| TapeRecords.JoinMore | eval/trust-spine-release-gate-cli.ts:1482-1488 | hashes are joined by one newline between neighbours |
| TapeCommitment.RootCommitsToCover | eval/trust-spine-release-gate-cli.ts:1206-1308 | with no hash collision among the strings the two tapes hash, two accepted tapes whose declared checkpoints share a root hash resolve to the same events, ids, kinds and payloads, and to the same run |
| TapeCommitment.OrderOfEventsIsFree | eval/trust-spine-release-gate-cli.ts:1139-1194 | reordering a tape around its checkpoint events changes neither acceptance nor what any declared checkpoint resolves to |
| CampaignPolicy.GetStringArray | eval/trust-spine-release-gate-cli.ts:2445-2469 | accepts exactly the non-empty lists of distinct non-empty strings |
| CampaignPolicy.CollectExpectedGroups | eval/trust-spine-release-gate-cli.ts:1007-1012 | the two loops collect the key of every expected pair |
| CampaignPolicy.ParseBaselines | eval/trust-spine-release-gate-cli.ts:1040-1078 | accepts exactly one valid baseline for every expected group; the final missing-group loop can never fire |
| CampaignPolicy.ParseReleasePolicy | eval/trust-spine-release-gate-cli.ts:954-1027 | accepts exactly the policies with the required provider, slash-free names, at least 30 tasks a group, an allowance of at most 0.05 and exact baselines |
| CampaignPolicy.PolicyExactly | eval/trust-spine-release-gate-cli.ts:954-1027 | the accepted policies written out, constants included |
| CampaignPolicy.PolicyInputValid | eval/trust-spine-release-gate-cli.ts:954-1027 | an accepted policy never makes the gate refuse its input |
| Campaign.ParseTapeRoots | eval/trust-spine-release-gate-cli.ts:1080-1137 | succeeds exactly when there is a root, every root is accepted, and no tape id and no source run is named twice |
| CampaignExact.RootsExactly | eval/trust-spine-release-gate-cli.ts:1080-1137 | roots are accepted exactly when each one's tape is, its declared checkpoint is one of the tape's and its events are the covered ones, and no tape id and no source run is named twice |
| Campaign.Consumed.Consume | eval/trust-spine-release-gate-cli.ts:1777-1790 | an event is spent unless its run and id were spent before |
| CampaignExact.SpendExactly | eval/trust-spine-release-gate-cli.ts:1777-1790 | an event is spent, as the next, exactly when no event spent before has its run and id joined by a NUL |
| CampaignExact.UnspentMeaning | eval/trust-spine-release-gate-cli.ts:1777-1790 | when no run id holds a NUL, the joined identity refuses exactly the events already spent |
| Campaign.Consumed.UseCampaignEvidenceRef | eval/trust-spine-release-gate-cli.ts:1741-1775 | a reference spends the covered event it names by tape, root hash, id and event hash |
| Campaign.Consumed.UseReleaseEvaluationSource | eval/trust-spine-release-gate-cli.ts:1792-1821 | a source is spent only if exactly one root holds it |
| CampaignExact.RefExactly | eval/trust-spine-release-gate-cli.ts:1823-1923 | a reference gives a claim exactly when it names an unspent covered event of a root, by tape, root hash, id and hash, that states that well-formed claim for this release, ref, policy and digest |
| CampaignExact.SourceExactly | eval/trust-spine-release-gate-cli.ts:1792-1821 | a source is spent exactly when one root alone holds its event under its hash and the event is unspent |
| Campaign.Consumed.DeriveTrial | eval/trust-spine-release-gate-cli.ts:1574-1606 | one trial spends its claim event and its six sources in order, and must fit the policy |
| Campaign.Consumed.DeriveTrials | eval/trust-spine-release-gate-cli.ts:1563-1628 | the trials and the spent events are those of the specification, or nothing exactly when the source throws |
| CampaignExact.TrialsExactly | eval/trust-spine-release-gate-cli.ts:1563-1628 | trials are derived exactly when each reference in turn gives a governed trial claim of the policy and its six sources can be spent after it; the trials are those claims field by field, and what is spent is those events in order |
| Campaign.Consumed.DeriveChecks | eval/trust-spine-release-gate-cli.ts:1698-1731 | each check event answers one required name not answered before; by `InvariantsMeaning` a name's answer is whether its event concluded in success |
| CampaignExact.ChecksExactly | eval/trust-spine-release-gate-cli.ts:1698-1731 | checks are derived exactly when each reference in turn gives a required check of a policy name not answered before, whose source can be spent; the answers are whether each concluded in success |
| Campaign.Consumed.DeriveInvariants | eval/trust-spine-release-gate-cli.ts:1630-1739 | the branch, replay and check evidence is spent in order; by `InvariantsMeaning` the three results are what those events state |
| CampaignExact.UnresolvedInOrder | eval/trust-spine-release-gate-cli.ts:1733-1739 | the unresolved names are listed in the policy's order |
| Campaign.EvaluateTrustSpineReleaseCampaignBundle | eval/trust-spine-release-gate-cli.ts:266-353 | the whole pipeline returns the specified evaluation, or nothing exactly when the source throws |
| CampaignExact.EvaluatedExactly | eval/trust-spine-release-gate-cli.ts:266-353 | the whole evaluation succeeds exactly when the bundle is for the release and policy asked, its roots are accepted, and its references can be spent in order, each on an event that states what it is used for and none twice; the outcome is then the report and the walk over what those events state |
| CampaignCount.TrialsDerived | eval/trust-spine-release-gate-cli.ts:1574-1626 | every derived trial is governed, names a provider and tier of the policy, and passes the report's own validation |
| CampaignClaims.TrialsWitnessed | eval/trust-spine-release-gate-cli.ts:1574-1626 | trial by trial, the report's trial is field by field what the spent claim event of its reference states for this release, ref, policy and claim digest, and each of its six sources was spent and is held by exactly one root |
| CampaignClaims.InvariantsMeaning | eval/trust-spine-release-gate-cli.ts:1630-1739 | on the events alone: the branch and replay flags are what the spent, covered events of their references state for this release, ref and policy; a policy name is unresolved exactly when no event of a check reference states a success of that name |
| CampaignCount.JudgedOnEvidence | eval/trust-spine-release-gate-cli.ts:266-353 | every judgement, ready or not, is of trials and invariants that the campaign's own events state, against the policy's own pairs, minimum, baselines and allowance |
| CampaignCount.EvaluationBound | eval/trust-spine-release-gate-cli.ts:266-353 | an evaluation is of the bundle, commit, ref and policy digest it was asked for, over accepted roots |
| CampaignCount.TrialCount | eval/trust-spine-release-gate-cli.ts:1563-1628 | trials of a releasable cohort fill every provider, tier, cohort member and trial number exactly once |
| CampaignCount.ChecksAnswer | eval/trust-spine-release-gate-cli.ts:1698-1731 | the number of check events equals the number of names they answer, all of them required |
| CampaignCount.SpentWithinDeclared | eval/trust-spine-release-gate-cli.ts:1080-1137 | everything spent is a covered event, and there is no more of it than the checkpoints declare |
| CampaignCount.ReadyCampaignEvidence | eval/trust-spine-release-gate-cli.ts:266-353 | a ready campaign over P providers, Q tiers and R checks holds every pair to one cohort of n tasks, n at least the policy minimum of at least 30, and to the policy's own baseline for that pair less the policy's allowance; every trial, branch immutability, replay compatibility and the success of every required check is what a spent event of this release states; it has spent exactly 21*n*P*Q + 4 + 2*R pairwise distinct events, each a non-checkpoint event covered by a verified checkpoint, at most the sum of the declared counts |
| CampaignCount.RootHashesDiffer | eval/trust-spine-release-gate-cli.ts:1115-1120 | without hash collisions two roots of one campaign never carry the same root hash |
| Json.QuoteDecodes | eval/trust-spine-release-gate-cli.ts:2372-2374 | parsing a stringified string gives the string back, control units and lone surrogates included |
| Json.PrintersAgree | apps/cli/src/governed-authority-broker-client.ts:797-820 | the broker's and the gate's printers give the same text, or both refuse, on every value |
| JsonScanner.Scanner.SkipWhitespace | eval/trust-spine-release-gate-cli.ts:482-486 | moves to the first unit that is not white space |
| JsonTokens.WhiteMeaning | eval/trust-spine-release-gate-cli.ts:482-486 | white space is a space, a tab, a line feed or a carriage return |
| JsonScanner.Scanner.ParseString | eval/trust-spine-release-gate-cli.ts:487-524 | ends where the specified string scan ends, accepts what decodes, and returns the decoded string |
| JsonTokens.DecodeMeaning | eval/trust-spine-release-gate-cli.ts:487-524 | a token denotes a string exactly when its first character, one-letter escape or four-digit escape stands for the string's first unit and the rest of the token denotes the rest |
| JsonTokens.EscapeMeaning | eval/trust-spine-release-gate-cli.ts:487-524 | the eight one-letter escapes and the units they stand for |
| JsonScanner.Scanner.ParseNumber | eval/trust-spine-release-gate-cli.ts:531-539 | takes the longest run of number units and refuses an empty one |
| JsonTokens.NumberMeaning | eval/trust-spine-release-gate-cli.ts:531-539 | the number units are the digits, both signs, the point and both exponent marks |
| JsonScanner.Scanner.ParseValue | eval/trust-spine-release-gate-cli.ts:540-614 | the recursive descent ends with the outcome and the index of the specified scan |
| JsonScanner.Scanner.AssertNoDuplicateJsonKeys | eval/trust-spine-release-gate-cli.ts:477-621 | terminates on every text with the outcome and final index of the specified scan |
| JsonScannerMeaning.ScanStops | eval/trust-spine-release-gate-cli.ts:477-621 | the index never goes back and ends within the text, unless the text ends inside a unicode escape, when it may stop one past the end |
| JsonScannerMeaning.CutEscapePassesEnd | eval/trust-spine-release-gate-cli.ts:511-517 | a three-unit text that leaves the index one past its end |
| JsonScannerMeaning.OverrunMeaning | eval/trust-spine-release-gate-cli.ts:487-524 | a string token runs past the end exactly when the text cuts one of its unicode escapes short |
| JsonOverrun.OverrunsExactly | eval/trust-spine-release-gate-cli.ts:477-621 | over whole texts: the index ends past the text exactly when the text is a well-formed prefix of open containers, none repeating a decoded name, followed by a string that the text cuts inside a unicode escape |
| JsonGrammar.UniqueObject | eval/trust-spine-release-gate-cli.ts:540-575 | an object is unique exactly when its decoded names differ pairwise and every value is unique |
| JsonGrammar.UniqueArray | eval/trust-spine-release-gate-cli.ts:577-595 | an array is unique exactly when each of its values is |
| JsonGrammar.AcceptsExactlyUnique | eval/trust-spine-release-gate-cli.ts:477-621 | on every text of the grammar, white space and escapes included, the scan accepts exactly when no object at any depth repeats a decoded name, and reads that very layout |
| JsonGrammar.AcceptedIsUnique | eval/trust-spine-release-gate-cli.ts:477-621 | whatever is accepted is a text of the grammar in which no object repeats a decoded name |
| JsonCanonical.CanonicalAccepted | eval/trust-spine-release-gate-cli.ts:2362-2390 | the scan accepts the canonical text of every printable value |
| JsonCanonical.OrderForgotten | eval/trust-spine-release-gate-cli.ts:2378-2388 | member order, at any depth, never shows in the canonical text; the order it has instead is that of `CanonicalMeaning` |
| JsonCanonical.CanonicalIdentifies | eval/trust-spine-release-gate-cli.ts:2362-2390 | two values have the same canonical text exactly when they are equal up to member order |
| JsonMeaning.CanonicalMeaning | eval/trust-spine-release-gate-cli.ts:2362-2390 | scanned back, the canonical text denotes the value it was printed from, has no white space, writes every string in its shortest token, and in every object at any depth an earlier name precedes a later one by the first code unit in which they differ |
| JsonMeaning.SortedAscend | eval/trust-spine-release-gate-cli.ts:2378-2388 | sorted members are the object's members, each once, in ascending code-unit order of their names |
| JsonMeaning.TextLeMeaning | eval/trust-spine-release-gate-cli.ts:2378-2388 | the order of names is by the first code unit in which they differ, a proper prefix first |
| JsonMeaning.HexFourLower | eval/trust-spine-release-gate-cli.ts:2372-2374 | unicode escapes are printed in lower-case digits |
| JsonMeaning.QuoteShortest | eval/trust-spine-release-gate-cli.ts:2372-2374 | no token of a string that keeps surrogates paired is shorter than the one printed |
| JsonMeaning.PrintsExactly | eval/trust-spine-release-gate-cli.ts:2362-2390 | a value prints exactly when nothing in it, at any depth, is a non-finite number or another kind of value |
| EvidencePublication.InvStep | apps/cli/src/governed-command-evidence-store.ts:810-852 | every step of every call, crash or failure keeps the protocol's invariant |
| EvidencePublication.PublishedNeverChanges | apps/cli/src/governed-command-evidence-store.ts:810-852 | in every run a published path keeps its bytes for good |
| EvidencePublication.NeverPartial | apps/cli/src/governed-command-evidence-store.ts:810-852 | a published path shows all the bytes some call on that path brought, never a part, although files are written and read in pieces |
| EvidencePublication.ReturnedIsPublished | apps/cli/src/governed-command-evidence-store.ts:810-852 | a call that returned has left its path holding exactly its bytes, from then on |
| EvidencePublication.ReturnsAgree | apps/cli/src/governed-command-evidence-store.ts:810-852 | two calls that returned on one path, whenever they did, wrote the same bytes |
| EvidencePublication.ReadStays | apps/cli/src/governed-command-evidence-store.ts:854-886 | what a read returned is what the path still shows |
| EvidenceReading.StatUnchanged | apps/cli/src/governed-command-evidence-store.ts:888-896 | in every run the stat of a published file differs between two moments exactly when its temporary name was unlinked between them at a later clock than its change time |
| EvidenceReading.ReadRefusedExactly | apps/cli/src/governed-command-evidence-store.ts:854-896 | in every run a read of a published record that meets no I/O failure is refused exactly when the record is over the bound or such an unlink falls between its two stats; otherwise it returns the record's bytes |
| EvidenceTraces.RefusalReached | apps/cli/src/governed-command-evidence-store.ts:854-896 | for every path and every record within the bound some run reaches such a refusal although the record was published before the read and still holds the same bytes |
| EvidenceDirectory.Directory.ReadImmutableFile | apps/cli/src/governed-command-evidence-store.ts:854-886 | undisturbed, a read refuses only an oversized record and otherwise returns the content or its absence |
| EvidenceDirectory.Directory.WriteImmutableFile | apps/cli/src/governed-command-evidence-store.ts:810-852 | undisturbed, a write succeeds exactly when the path is free or holds the same bytes and they fit; it leaves no temporary name and no other path changed |
| OutputChecks.NormalizeOutputChecks | apps/cli/src/governed-command-evidence-store.ts:339-378 | accepts exactly bounded lists of permitted paths, bounded together, with distinct digests, and returns them sorted by digest |
| OutputChecks.NormalizedMeaning | apps/cli/src/governed-command-evidence-store.ts:339-378 | accepted checks become as many digests, each with the presence listed for its path, in strictly ascending order of their characters |
| OutputChecks.CheckOrderIgnored | apps/cli/src/governed-command-evidence-store.ts:339-378 | the order in which checks are listed changes neither acceptance nor the result, even if two path digests collide |
| EvidenceStore.StoreStep | apps/cli/src/governed-command-evidence-store.ts:102-168 | every step of the two operations over the publication protocol keeps the store's invariant |
| EvidenceStore.EverythingStoredIsBacked | apps/cli/src/governed-command-evidence-store.ts:694-785 | in every reachable state, crashes included, each blob lies under its own hash and each identity binding names a stored blob |
| EvidenceStore.ResultHasInput | apps/cli/src/governed-command-evidence-store.ts:570-588 | a published result binding has, for its run and action, an intact canonical-input binding and blob |
| EvidenceBindings.OneArtifactPerIdentity | apps/cli/src/governed-command-evidence-store.ts:694-741 | two bindings of one identity that are on disk at any two moments of a run are the same binding |
| EvidenceBindings.OneEvidencePerAction | apps/cli/src/governed-command-evidence-store.ts:155-158 | any two action bindings of one run and action, on disk at any two moments and whatever became of their operations, name one evidence artifact |
| EvidenceBindings.FinishedAgree | apps/cli/src/governed-command-evidence-store.ts:123-168 | two result operations that finish for one run and action report the same evidence |
| EvidenceBindings.BindingIsRooted | apps/cli/src/governed-command-evidence-store.ts:123-168 | behind every request binding stand an operation started for that request and a stored evidence record that carries it; behind every action binding a request binding that names the same evidence |
| EvidenceBindings.OneEvidenceExactly | apps/cli/src/governed-command-evidence-store.ts:151-158 | in every reachable state the action and request bindings of a run and action name one evidence exactly when at most one request has been bound for it |
| EvidenceBindings.OneRequestSuffices | apps/cli/src/governed-command-evidence-store.ts:151-158 | if every result operation started for a run and action carries one request reference and digest, one evidence is bound to it at most |
| EvidenceConflict.TwoEvidencesBound | apps/cli/src/governed-command-evidence-store.ts:123-168 | for any two results of one run and action under different requests, some run finishes the first and leaves the second's request bound to other evidence when its action binding conflicts |
| EvidenceCompletion.FinishedIsComplete | apps/cli/src/governed-command-evidence-store.ts:102-168 | an operation that finished left everything it promised: an input its blob and binding; a result its evidence record, the result record the evidence names exactly when the outcome succeeded, both bindings and the input they rest on |
| EvidenceCompletion.FinishedRecordsResult | apps/cli/src/governed-command-evidence-store.ts:123-168 | when a result operation finishes, the blob under its artifact is an evidence record whose outcome, request, gateway input and result digests, exit code and output checks are those of the result it was given, whose canonical input is the artifact bound for the action's input, and which names a stored result record exactly when the outcome succeeded; both bindings name the artifact |
| EvidenceCompletion.FinishedRecordsInput | apps/cli/src/governed-command-evidence-store.ts:102-121 | when an input operation finishes, its bytes lie under their own hash, and the file named by the digest of its locator binds that hash to its run and action |
| EvidenceCompletion.RecordsFit | apps/cli/src/governed-command-evidence-store.ts:798-808 | in every reachable state no published file exceeds the record bound, unless it is an input blob whose bytes an operation was given |
| EvidenceStore.SameOperation | apps/cli/src/governed-command-evidence-store.ts:463-489 | results that list the same output checks in another order make the same calls with the same digests |
| EvidenceStore.ResultTaken | apps/cli/src/governed-command-evidence-store.ts:463-489 | a result is taken exactly when its output checks are accepted, and then field by field |
| Heartbeats.ParseNativeActivityClaimHeartbeats | apps/cli/src/ledger-governed-dispatch-resolver.ts:2628-2784 | the loop over previous expiry, previous time and the shared set accepts exactly the specified histories |
| Heartbeats.HistoryHolds | apps/cli/src/ledger-governed-dispatch-resolver.ts:2628-2784 | in an accepted history expiries and times strictly increase, every instant from the claim to the final expiry is covered by a grant made by then, the final expiry is the claim's and within the deadline, and there are at most deadline - claimedAt - 1 heartbeats |
| HeartbeatRecords.HistoryMeaning | apps/cli/src/ledger-governed-dispatch-resolver.ts:2628-2784 | a history is accepted exactly when it is absent, or not empty with every event the claim's own, new, made while the lease runs, carrying it forward within the deadline from where the event before left it, and the last ending at the claim's lease expiry |
| Recovery.ParseNativeRequests | apps/cli/src/ledger-governed-dispatch-resolver.ts:1974-2080 | the requests read, or nothing; `RequestsExactly` says when and what |
| RecoveryRecords.RequestsExactly | apps/cli/src/ledger-governed-dispatch-resolver.ts:1974-2080 | requests are read exactly when each carries the dispatch's policy, repository, realm, packet, actor and role and a digest of the request it becomes, and no action id repeats; every field of each is the recorded one |
| Recovery.ParseNativeReceipts | apps/cli/src/ledger-governed-dispatch-resolver.ts:2082-2237 | the receipts read, or nothing; `ReceiptsExactly` says when and what |
| RecoveryRecords.ReceiptsExactly | apps/cli/src/ledger-governed-dispatch-resolver.ts:2082-2237 | receipts are read exactly when each answers, by digest, action id and key, the last request with its digest, carries its result in whole or not at all and a digest of the receipt it becomes, and no action id repeats; every field of each is the recorded one |
| RecoveryRecords.CandidatesExactly | apps/cli/src/ledger-governed-dispatch-resolver.ts:2291-2412 | candidates are read exactly when each is of the dispatch's base commit and envelope without a legacy receipt; every field of each is the recorded one |
| Recovery.ParseNativeActivityClaims | apps/cli/src/ledger-governed-dispatch-resolver.ts:2420-2602 | the claims read, or nothing; `ClaimsExactly` says when and what |
| RecoveryClaims.ClaimsExactly | apps/cli/src/ledger-governed-dispatch-resolver.ts:2420-2602 | claims are read exactly when the effect deadline exists, each names the dispatch and its request, its purpose fits its kind, its result names it, its heartbeats kept its lease alive, and no activity, key, event or heartbeat event is shared; every field of each, lease, purpose and result included, is the recorded one |
| Recovery.ParseNativePendingActivityRecoveryWork | apps/cli/src/ledger-governed-dispatch-resolver.ts:948-1101 | accepts or refuses; `PendingWorkExactly` says when |
| RecoveryClaims.PendingWorkExactly | apps/cli/src/ledger-governed-dispatch-resolver.ts:948-1101 | pending work is accepted exactly when every item is the dispatch's, agrees with its request and with its claim, which has no result, waits for that claim's lease or gives a known reason, and no two items name one claim or action |
| RecoveryChain.ReceiptsMapInjectively | apps/cli/src/ledger-governed-dispatch-resolver.ts:2082-2237 | in every accepted recovery each receipt has exactly one request with its action id, key and digest, and no two receipts share it |
| RecoveryChain.ClaimsMapInjectively | apps/cli/src/ledger-governed-dispatch-resolver.ts:2420-2602 | in every accepted recovery each claim has exactly one request with its ref, action id, key and digest, and no two claims share it, although request refs may repeat |
| RecoveryChain.WorkMapsInjectively | apps/cli/src/ledger-governed-dispatch-resolver.ts:948-1101 | in every accepted recovery each item of pending work has exactly one claim, that claim has no result, and no two items share it |
| RecoveryChain.WorkReachesOneRequest | apps/cli/src/ledger-governed-dispatch-resolver.ts:948-1101 | in every accepted recovery pending work maps one to one through its open claim to a request; action id, key, request digest and reference are equal along the chain, and each of the three places decides the other two |
| RecoveryLinks.DeadlineMeaning | apps/cli/src/ledger-governed-dispatch-resolver.ts:2791-2812 | the effect deadline is the earlier of the dispatch's expiry and its issue time plus its compute budget |
| RecoveryLinks.DeadlineExists | apps/cli/src/ledger-governed-dispatch-resolver.ts:2791-2812 | there is a deadline exactly when the times it needs can be read and the end of the compute budget is representable |
| RecoveryChain.LeaseWithinDeadline | apps/cli/src/ledger-governed-dispatch-resolver.ts:2420-2602 | in every accepted recovery the claim in the snapshot carries the recorded lease id and expiry, and if it has heartbeats that lease never lapsed and ends by the effect deadline |
| RecoveryChain.HeartbeatsServeOnce | apps/cli/src/ledger-governed-dispatch-resolver.ts:2420-2602 | in every accepted recovery no heartbeat event is used twice, within a claim or across claims |
| RecoveryProjection.ParseReviews | apps/cli/src/ledger-governed-dispatch-resolver.ts:3248-3392 | accepts exactly reviews with distinct references whose version-2 details bind the candidate read-only |
| RecoveryProjection.ValidatePendingPromotionApproval | apps/cli/src/ledger-governed-dispatch-resolver.ts:3092-3183 | accepts exactly the projections whose one candidate has its completion, its passed acceptance and approving reviews |
| RecoveryProjection.ParseApprovalWork | apps/cli/src/ledger-governed-dispatch-resolver.ts:1762-1939 | accepts exactly the work list that the phase and the approval's event digest call for |
| RecoveryProjection.CheckLaterState | apps/cli/src/ledger-governed-dispatch-resolver.ts:857-893 | the phase decides which later fields may be present |
| RecoveryProjection.ParseNativeRecovery | apps/cli/src/ledger-governed-dispatch-resolver.ts:794-940 | the parser returns the specified resolution, or nothing exactly when the source throws |
| RecoveryExact.RecoveryExactly | apps/cli/src/ledger-governed-dispatch-resolver.ts:794-940 | a native recovery is accepted with a resolution exactly when every request, receipt, candidate, claim and item of work, the completion and the later state are accepted as stated on the native records, and every field of the resolution is the recorded one |
| RecoveryExact.LaterExactly | apps/cli/src/ledger-governed-dispatch-resolver.ts:857-893 | the later state is accepted exactly when it is absent, or the approval names one candidate with its completion, its passed acceptance, readable reviews of which every named one approves, and exactly its own work item |
| FreshStart.SameDispatchIsEquality | apps/cli/src/governed-execution-session.ts:526-561 | the 29-field comparison is equality of dispatches |
| FreshStart.AssertSameDispatch | apps/cli/src/governed-candidate-session.ts:237-285 | the field loop and the budget check together are equality of dispatches |
| FreshStart.ExecutionGateIsFresh | apps/cli/src/governed-execution-session.ts:320-361 | a parsed recovery the execution gate accepts has no claim, pending work, completion, approval, approval work, cancellation, acceptance, review, promotion, terminal evidence or timer, though the gate reads few of these |
| FreshStart.CandidateGateIsFresh | apps/cli/src/governed-candidate-session.ts:219-233 | the candidate-session gate gives the same conclusion, timers apart |
| FreshStart.GatesOpen | apps/cli/src/governed-execution-session.ts:320-361 | conversely each gate opens on every quiet recovery; the two differ only on timers |
| FreshStart.ApprovalIsBound | apps/cli/src/ledger-governed-dispatch-resolver.ts:3092-3183 | an accepted recovery waiting for promotion has exactly one matching candidate, its completion and passed acceptance, and for every named review an approving version-2 review of the same candidate, envelope and acceptance; schema 2 lists one work item exactly when the approval carries an event digest, schema 1 none |
| U64Decimal.AcceptsExactlyU64 | apps/cli/src/ledger-governed-dispatch-resolver.ts:3895-3907 | accepts exactly the strings that are the decimal of a number below 2^64 |
| U64Decimal.DecimalIsShortest | apps/cli/src/ledger-governed-dispatch-resolver.ts:3895-3907 | every such number has one accepted string, and no digit string for it is shorter |
| U64Decimal.LengthThenOrder | apps/cli/src/ledger-governed-dispatch-resolver.ts:3895-3907 | length first and then string order is numeric order on canonical decimals |
| TaskNumbers.ReadNumberFromLastMatch | apps/cli/src/gsd2.ts:1221-1237 | the loop returns the positive number of the last matching line |
| TaskNumbers.LastNumberMeaning | apps/cli/src/gsd2.ts:1221-1237 | a number is read exactly when it is positive and stands on the last matching line |
| TaskNumbers.MaxTaskDirectoryNumber | apps/cli/src/gsd2.ts:1109-1114 | an upper bound of the directory numbers that is one of them, or zero when there are none |
| TaskNumbers.WrittenReadsBack | apps/cli/src/gsd2.ts:1128-1138 | a rewritten STATE.md reads back the current schema and the counter just written, whatever it held before |
| TaskNumbers.OtherLinesStay | apps/cli/src/gsd2.ts:1128-1138 | rewriting drops the counter lines and keeps every other line, in order |
| TaskNumbers.PastEveryDirectory | apps/cli/src/gsd2.ts:1102-1114 | an allocated number exceeds that of every task directory |
| TaskNumbers.NextIsLeastFree | apps/cli/src/gsd2.ts:1102-1114 | the number allocated is the least that exceeds every directory and is not below the counter, and there is none exactly when that one is past 9999 |
| TaskNumberSafety.InvStep | apps/cli/src/gsd2.ts:334-385 | every access to the shared files, exception, crash, failed lock write, directory removal and stale-lock removal keeps the allocation invariant |
| TaskNumberSafety.AtMostOneInside | apps/cli/src/gsd2.ts:1175-1196 | in every run at most one process is inside the locked section |
| TaskNumberSafety.PrintedIncrease | apps/cli/src/gsd2.ts:334-385 | in every run the numbers printed strictly increase and lie in 1..9999 |
| TaskNumberSafety.CompletedCallsDiffer | apps/cli/src/gsd2.ts:334-385 | two completed calls never return the same number |
| TaskNumberSafety.LaterIsLarger | apps/cli/src/gsd2.ts:334-385 | a number printed later exceeds every number printed before, even after crashes and removals |
| TaskWorkspace.Workspace.AcquireMutationLock | apps/cli/src/gsd2.ts:1175-1186 | succeeds exactly when the lock was free and the process could be recorded in it; the file is there afterwards either way |
| TaskWorkspace.Workspace.MigrateStateSchema | apps/cli/src/gsd2.ts:1150-1173 | an unversioned file is rewritten with its counter kept; an unknown version is refused |
| TaskWorkspace.Workspace.PrepareState | apps/cli/src/gsd2.ts:341-350 | a missing STATE.md is created and an unversioned one migrated; only an unknown schema version is refused |
| TaskWorkspace.PreparedMeaning | apps/cli/src/gsd2.ts:1150-1173 | preparation refuses exactly an unknown version, leaves a current file as it is, and otherwise keeps the counter or starts one past the largest directory |
| TaskWorkspace.Workspace.RunNew | apps/cli/src/gsd2.ts:334-385 | alone, `new` returns a number past every directory and the counter, records it, advances the counter past it and frees the lock; without the lock it changes nothing else |
| TaskWorkspace.NextIsLarger | apps/cli/src/gsd2.ts:1102-1107 | after an allocation the next one is larger, whatever directories were deleted meanwhile |
| TaskWorkspace.AloneAllocates | apps/cli/src/gsd2.ts:334-385 | a process that moves alone through the steps of the machine allocates exactly what `new` allocates |
| LoopSupervisor.NeverMoves | apps/cli/src/loop-supervisor.ts:158-250 | the trusted base, limits and envelope reference never change |
| LoopSupervisor.LiveMeansAlive | apps/cli/src/loop-supervisor.ts:188-250 | the reducer is live exactly while its transition list holds no ending event, has never passed the token budget and has no more advances than allowed |
| LoopSupervisor.TerminalStays | apps/cli/src/loop-supervisor.ts:188-189 | a terminal state never changes again |
| LoopSupervisor.RunMeaning | apps/cli/src/loop-supervisor.ts:188-250 | for every list: `iteration` counts the advances of its live part and stays within the limit, the token total sums what was consumed and exceeds the budget exactly when the reason is the token budget, and the reason and detail are those of the transition that ended it |
| LoopSupervisor.PositionMeaning | apps/cli/src/loop-supervisor.ts:188-250 | for every list of transitions, over its live part: the phase is that of the last transition that moved it, the merged head that of the last merge, the slice that of the last selection unless an advance came later; the transition that ends the run moves none of them |

## Left out

- TapeCommitment.OrderOfEventsIsFree: one lexicographic order stands both for the `<=` that selects covered events and for the `localeCompare` that sorts them; the two agree on the UUID text in use.
- Json.PrintersAgree: a finite number is known by the token it prints as, so zero and negative zero are one number.
- Tape.VerifySignedTape: the key list a tape export carries is only checked for its shape in the source, and is not modelled.
- RecoveryProjection.ParseReviews: the range of a review's confidence, its findings and the shapes of its other fields are not modelled.
- EvidenceReading.ReadRefusedExactly: it is about reads; a writer's own two readings follow the same steps but have no theorem of their own.
- EvidenceConflict.TwoEvidencesBound: the host has no hash collision, reads back what it encodes, and the records are within the bound.
- RecoveryRecords.CandidatesExactly: a candidate's id, its commit, patch and changed-file digests and its receipt-set lineage are not carried, and the host's candidate parser is not modelled.
- TaskNumbers.OtherLinesStay: blank lines at the end of STATE.md, which a rewrite trims, are not told apart from other lines.
- RecoveryProjection.ParseNativeRecovery: timers, cancellation bodies, receipt sets and the completion's own lineage check are host predicates; only their presence is modelled.
- Campaign.EvaluateTrustSpineReleaseCampaignBundle: the bundle's attestation signature, its validity window and the parsing of the trust root come before this model.
- Shapes of single fields (closed records, UUID and digest patterns, commit and ref syntax, non-empty strings) are built into the datatypes.
- Ed25519, SHA-256, base64 and key objects are not modelled.
- Floating point: rates, means and costs are exact rationals.
- Power loss: a crash stops a process, it does not undo completed file operations; directory permissions, symbolic links and path canonicalization are not modelled.
- The in-process queue that serializes a store's operations: every interleaving is allowed instead.
- `Number` conversion of counters above 2^53 in STATE.md, and the line patterns themselves: STATE.md is a list of classified lines.
- Removal of a live process's lock file: a stale lock is removed only once its creator is no longer at work.
- Reading and writing of YAML, task envelopes and receipts, admission and recovery plans.
- Phase order of the loop reducer: it does not check the current phase; persistence of the loop state and the envelope proposal.
- Subprocess clients, emit ports, formatters, the web UI and the other commands.
