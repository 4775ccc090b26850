# Verified models of the packs

This project models the algorithmic and stateful parts of the reactive packs and proves what they promise over all
inputs and all runs. Each module follows one component of the repository:

- `EditDistance`, `EntitySimilarity`, `EntityIndex`: the one-row distance loop, the similarity of two entities, the
  alias index beside the entity registry, the mention resolver and the merge candidate detector.
- `EvidenceLedger`, `ExtractionLifecycle`, `StructureExtraction`, `CandidateProjection`, `DisabledProjection`,
  `ReplayArtifacts`: evidence revisions and tombstones, idempotent extraction and the disabling of extractor versions,
  the migration from direct candidates to annotations, what projection does beside a disabled version, and the
  content-addressed replay store with its references and locators.
- `Adoption`, `AdoptionTickets`, `AdoptionSafety`, `AdoptionBoot`, `AdoptionDeaths`, `AdoptionRuns`, `RunningPacks`,
  `AdoptionChassis`, `AdoptionExamples`: the adoption ticket processor as lists of writes, its executors, the recorder
  of promotions and their reload at boot, processes that die after any write, and the bundles the runtime runs.
- `Hygiene`, `Conversation`: selection of model-eligible text, and materialisation of service messages.
- `AttentionScores`, `AttentionRecorder`, `EvidenceFold`, `ImportanceVectors`, `TrustVectors`, `Ranking`: evidence
  scores, the recording of observations singly and in batches, the fold of evidence shared by the importance and the
  source trust projector, and the ranking with its exploration reserve.
- `Outcomes`: the writers of terminal and maintenance outcomes, their capture from evaluations and the projected tallies.
- `ChatSessions`: chat sessions, numbered turns and the process-local caches.
- `RuntimeExecutor`: the queue and the single thread that own the graph.
- `Prelude`, `Kinds`, `Text`: an option and a result type, distinct sequences, the kinds of candidates, and the Python
  string operations used.

Each component has the same shape. Plain functions say what a step does to the graph; a class with the component's
mutable fields carries the source's loops and early exits, and its methods are proved equal to those functions; lemmas
about the functions state the guarantees, over whole runs where the guarantee is about runs, and say what a step does
in terms of the fields of its input, without the functions that compute it. Objects are named by their
place in creation order, and a stable identifier is the tuple it hashes. Where a promise of the source fails, a lemma
shows a concrete input and another gives the exact condition under which it holds.

What the models take as parameters: regular expressions, case folding, stripping and lower-casing of labels, the digest
function, the answers of the runtime to the adoption processor, the resolved subject of an outcome, and the verdict of
payload and schema validation. Nothing is assumed of them except where a contract says so: `Hygiene.LinesConserved`
needs patterns that match visible text only, `ReplayArtifacts.ReadBack` needs the stored payloads not to collide, and
`Ranking.RankedIgnoresOrder` needs the ranked subjects not to collide.

Promises that do not hold as stated, with the condition under which they do:

- A mention whose identifier is known can still be given a fresh entity when the resolution threshold is 0
  (`EntityIndex.IdentifierMatchFreshIff`), and a repeated mention can be given a second entity
  (`EntityIndex.ResolvedAgainIff`).
- Disabling an extractor version with an empty configuration id invalidates the records of all configurations but
  refuses only the empty one (`ExtractionLifecycle.RefusedIff`).
- An entity created after a restart is never compared with those created before it, so a similar pair on two sides of
  a restart is never flagged (`EntityIndex.EachSimilarPairOnce`, `EntityIndex.RestartSplitsPairExample`), and a mention
  is resolved among the entities created since the last restart only (`EntityIndex.FreshAfterRunIff`,
  `EntityIndex.RestartFreshExample`).
- A successful adoption can leave its pack without an active promotion until the next boot
  (`AdoptionSafety.AdoptionActiveIff`, `AdoptionDeaths.DeathKeepsPack`).
- The runtime does not always run the bundles of the active promotions: an update that aborts late leaves its own bundle
  running under the live promotion's name (`RunningPacks.AdoptedAgreesIff`), disabling a superseded promotion
  deregisters the pack of the live one (`RunningPacks.DisablingAgreesIff`), and after a restart a failed or interrupted
  update keeps the live promotion's pack down (`RunningPacks.BootAgreesIff`, `RunningPacks.DeathAgreesIff`).
- The compatibility projector still mints candidates under the identity of a disabled extractor version, and no disable
  ever closes those: what is open under a disabled identity is what no extraction record lists
  (`DisabledProjection.OpenIffUnlisted`, `DisabledProjection.MintedStaysOpen`).
- A message that moves to another thread breaks the counters of both (`Conversation.CountsKeptIff`), and a configured
  model request limit of 0 acts as 10 (`Conversation.ConfiguredLimitKeptIff`).
- A batch of observations is accepted although two of its rows share an id and differ; the second is lost
  (`AttentionRecorder.BatchKeptIff`).
- The capture of an evaluation conflicts with the explicit verdict recorded on it exactly when that verdict contradicts
  the evaluation's own judgment (`Outcomes.ConflictIff`).
- A chat session shared by two users leaves stale registry entries behind, which repeat turn numbers
  (`ChatSessions.RegistryKeptIff`), and a context assembled after a later turn was ingested contains that later turn
  (`ChatSessions.ContextLooksBackIff`).

## Model

| member | source | states |
|---|---|---|
| EditDistance.Distance | packs/entity/behaviors.py:80-89 | the one-row loop computes the recursive Levenshtein distance |
| EditDistance.LevIsMinimum | packs/entity/behaviors.py:80-89 | that distance is the least cost of an edit script turning one label into the other |
| EditDistance.LevIsLowerBound | packs/entity/behaviors.py:80-89 | no edit script is cheaper than the distance |
| EditDistance.LevTriangle | packs/entity/behaviors.py:80-89 | the distance obeys the triangle inequality |
| EditDistance.LevZero | packs/entity/behaviors.py:76-77 | the distance is 0 for equal labels only |
| EditDistance.LevSymmetric | packs/entity/behaviors.py:80-89 | the distance does not depend on the order of its arguments |
| EditDistance.EditDistanceRatio | packs/entity/behaviors.py:73-91 | the returned value is the ratio of the lower-cased labels, early returns included |
| EditDistance.RatioProperties | packs/entity/behaviors.py:73-91 | the early returns agree with the general formula; the ratio lies in [0, 1], is symmetric, and is 1 exactly for equal labels |
| EditDistance.RatioIsShareKept | packs/entity/behaviors.py:73-91 | the score is 1 minus the least number of edits of any script over the length of the longer label |
| EditDistance.RatioZeroIff | packs/entity/behaviors.py:73-91 | the score is 0 if and only if no script is cheaper than the longer label is long; two empty labels score 1 |
| EntitySimilarity.IdentifierOverlapScore | packs/entity/behaviors.py:94-101 | 1 exactly when some shared identifier key has values equal up to case, else 0 |
| EntitySimilarity.BestIsMax | packs/entity/behaviors.py:117-129 | the name score is the maximum over all pairs of labels |
| EntitySimilarity.BestLabelScore | packs/entity/behaviors.py:121-129 | the label loop with its exact-match exit finds that maximum |
| EntitySimilarity.ComputeSimilarity | packs/entity/behaviors.py:104-136 | score and reasons are the ones defined by identifier overlap and best label pair |
| EntitySimilarity.ScoreMeans | packs/entity/behaviors.py:104-136 | a shared identifier scores 1; else the score is the greatest ratio of a label of the one entity and a label of the other |
| EntitySimilarity.ReasonsMean | packs/entity/behaviors.py:104-136 | the reason is the shared identifier, else an equal label, else near from 0.9 and partial from 0.7 |
| EntitySimilarity.SimilaritySymmetric | packs/entity/behaviors.py:104-136 | swapping the two entities changes neither score nor reasons |
| EntitySimilarity.ScoreBounds | packs/entity/behaviors.py:104-136 | the score lies in [0, 1] and a shared normalised label forces 1 |
| EntityIndex.EntityPack.AddToAliasIndex | packs/entity/behaviors.py:55-61 | the label loop adds the id once under every non-empty normalised label and changes nothing else |
| EntityIndex.EntityPack.EntityRegistryRecorder | packs/entity/behaviors.py:250-278 | recording replaces or appends the registry entry and indexes its labels |
| EntityIndex.ExactKeptIff | packs/entity/behaviors.py:250-278 | recording keeps the alias index equal to the labels in the registry if and only if the replaced entry loses no label |
| EntityIndex.IndexHoldsRun | packs/entity/behaviors.py:250-278 | over every run with restarts anywhere the registry is exactly what was created since the last restart, and the alias index is exact |
| EntityIndex.EntityPack.MergeCandidateDetector | packs/entity/behaviors.py:563-617 | the loop flags exactly the other recorded entities whose score reaches the threshold, in registry order |
| EntityIndex.EntityPack.OnEntityCreated | packs/entity/behaviors.py:250-278 | recorder then detector, on each arrival, extend registry, index and candidates as the run prescribes |
| EntityIndex.EachSimilarPairOnce | packs/entity/behaviors.py:563-617 | over every run each unordered pair is flagged exactly once when it is similar enough and no restart lies between the arrivals, and never otherwise |
| EntityIndex.CandidateMeans | packs/entity/behaviors.py:563-617 | every candidate names two entities of one process, the later first, with their score and reasons, at or above the threshold |
| EntityIndex.RestartSplitsPairExample | packs/entity/behaviors.py:44-47 | concrete run: two equal entities on the two sides of a restart are not flagged |
| EntityIndex.EntityPack.StartProcess | packs/entity/behaviors.py:44-47 | a new process starts with an empty registry and index over the same candidates |
| EntityIndex.FlaggedPairsIgnoreOrder | packs/entity/behaviors.py:563-617 | two runs over the same entities flag a pair equally often if and only if it is not similar enough, or both create it in one process, or neither does |
| EntityIndex.EntityPack.EntityResolver | packs/entity/behaviors.py:443-558 | with its early exits and with either value of the auto-accept flag the resolver decides as the exhaustive scan does |
| EntityIndex.AliasBestStable | packs/entity/behaviors.py:482-494 | once the alias scan has reached score 1 the rest of it cannot change the choice |
| EntityIndex.IdBestStable | packs/entity/behaviors.py:497-506 | the same for the identifier scan |
| EntityIndex.ResolutionClosedForm | packs/entity/behaviors.py:478-511 | oldest entity labelled with the text, else, for a positive threshold, oldest with a matching identifier, else a fresh one |
| EntityIndex.IdentifierMatchFreshIff | packs/entity/behaviors.py:496-511 | a mention with a known identifier is given a fresh entity if and only if the threshold is 0 and no label matches |
| EntityIndex.ResolvedAgainIff | packs/entity/behaviors.py:523-543 | a repeated mention links to the entity made for it if and only if its text is among that entity's labels or its email identifies it |
| EntityIndex.FreshEntityMeans | packs/entity/behaviors.py:523-543 | name, aliases and identifiers of the fresh entity, in terms of the mention |
| EntityIndex.FreshAfterRunIff | packs/entity/behaviors.py:478-511 | after every run a mention is given a fresh entity if and only if nothing created since the last restart carries its text, and the threshold is 0 or nothing of it shares its identifier |
| EntityIndex.RestartFreshExample | packs/entity/behaviors.py:44-47 | concrete run: after a restart a mention with a recorded text and email is given a fresh entity at every threshold |
| EntityIndex.ThresholdZeroExample | packs/entity/behaviors.py:497-511 | concrete input: known email, threshold 0, fresh entity |
| EntityIndex.DuplicateExample | packs/entity/behaviors.py:523-543 | concrete input: a repeated mention with a normalised name and no email is given a second entity |
| EvidenceLedger.Ledger.NormalizeAcquiredItem | packs/activity_normalizer/behaviors.py:383-447 | a delivery adds a revision, supersedes the last one, or leaves the ledger alone, as specified; rejected items count a failure |
| EvidenceLedger.RevisionIff | packs/activity_normalizer/behaviors.py:383-447 | after every run a delivery adds a revision if and only if its payload is readable and buildable and its hash is not that of the identity's last revision; it fails exactly when it adds none and is no readable repeat |
| EvidenceLedger.Ledger.FulfillInvalidationRequest | packs/activity_normalizer/behaviors.py:571-619 | a proposed tombstone revokes exactly the current evidence it names and lists what it revoked |
| EvidenceLedger.RunKeepsChain | packs/activity_normalizer/behaviors.py:383-447 | over every run revisions are numbered 1..n, each supersedes the one before and differs from it, and exactly the non-last ones are superseded |
| EvidenceLedger.OneCurrent | packs/activity_normalizer/behaviors.py:435-442 | of two revisions of one identity the earlier is superseded: at most one is current, and it is the last |
| EvidenceLedger.RevisionsAreDistinctDeliveries | packs/activity_normalizer/behaviors.py:389-402 | an identity's revisions are its accepted deliveries with immediate repeats dropped; tombstones and failures leave no trace in them |
| EvidenceLedger.CurrentUntilBuried | packs/activity_normalizer/behaviors.py:581-599 | the last revision is current if and only if no tombstone has hit it since the delivery that made it; redelivery does not revive it |
| EvidenceLedger.BuriedExactly | packs/activity_normalizer/behaviors.py:581-599 | a proposed tombstone leaves nothing of its identity or provider item on its surface current, and changes nothing else |
| EvidenceLedger.NoneCurrentUntilNew | packs/activity_normalizer/behaviors.py:581-599 | from a tombstone that names an identity on, the identity has no current revision until it is delivered with new content |
| ExtractionLifecycle.Extraction.ExtractorDisabled | packs/activity_normalizer/behaviors.py:144-157 | the last version state covering the key decides |
| ExtractionLifecycle.Extraction.RunExtraction | packs/activity_normalizer/behaviors.py:251-332 | an identity with a record changes nothing; a disabled or failing extractor writes nothing; else one completed record lists its new candidates |
| ExtractionLifecycle.Extraction.DisableExtractorVersion | packs/activity_normalizer/tools.py:106-197 | the nested loops invalidate the records in scope and their candidates and count both |
| ExtractionLifecycle.RunSound | packs/activity_normalizer/behaviors.py:251-332 | over every run: one record per identity, completed records have an enabled version, and all candidates of invalidated records are dead |
| ExtractionLifecycle.DisabledKills | packs/activity_normalizer/tools.py:158-190 | after the call every listed non-memory candidate is invalidated and every memory one has an invalidating evaluation |
| ExtractionLifecycle.DisabledForever | packs/activity_normalizer/tools.py:106-197 | however the run goes on after a disable with a proper scope, no record of it is completed or added |
| ExtractionLifecycle.RefusedIff | packs/activity_normalizer/behaviors.py:144-157 | an invalidated key is refused from then on if and only if the configuration id is not empty, or it was refused or empty already |
| ExtractionLifecycle.DisableExactly | packs/activity_normalizer/tools.py:106-164 | a disable closes exactly the records of its extractor, version and configuration, and refuses exactly those identities |
| ExtractionLifecycle.DisableSpares | packs/activity_normalizer/tools.py:165-197 | a candidate dies of a disable if and only if a record the call reaches lists it |
| ExtractionLifecycle.EvaluationsExactly | packs/activity_normalizer/tools.py:145-185 | a disable evaluates exactly the memory candidates a reached record lists |
| ExtractionLifecycle.CountsMean | packs/activity_normalizer/tools.py:143-192 | the counts a disable reports: the completed records it reaches, and the candidates those it reaches list |
| ExtractionLifecycle.ExtractsIff | packs/activity_normalizer/behaviors.py:251-332 | an extraction adds a record if and only if its identity has none, is not refused and the extractor answers; the record lists the new candidates in order |
| ExtractionLifecycle.EmptyConfigExample | packs/activity_normalizer/tools.py:150-153 | concrete input: with an empty configuration id the same version completes a new record |
| StructureExtraction.LegacyExtract | packs/activity_normalizer/extractors.py:61-143 | the extraction loops give the first draft of each kind and folded text, cut at the cap |
| StructureExtraction.FindDrafts | packs/activity_normalizer/extractors.py:70-130 | the scan gives a memory draft of the first line and then the line drafts in order |
| StructureExtraction.DropRepeats | packs/activity_normalizer/extractors.py:132-143 | the loop with its set of seen keys keeps exactly first occurrences and stops at the cap |
| StructureExtraction.MemoryIsFirst | packs/activity_normalizer/extractors.py:70-143 | exactly the first draft is a memory draft |
| StructureExtraction.FoundIff | packs/activity_normalizer/extractors.py:70-130 | the scan finds exactly a memory of the first line and, for each line and each of the five rules it matches, that rule's draft |
| StructureExtraction.LineDraftsOrdered | packs/activity_normalizer/extractors.py:87-130 | the drafts of one line come in the order preference, task, profile, skill, evaluation |
| StructureExtraction.DraftsDistinct | packs/activity_normalizer/extractors.py:132-143 | no two drafts share kind and folded text, and there are no more than the cap, of at least one |
| StructureExtraction.FindingsStand | packs/activity_normalizer/extractors.py:132-143 | below the cap every finding is represented by a draft of its kind and folded text |
| StructureExtraction.DraftsVisible | packs/activity_normalizer/extractors.py:61-143 | with a positive text limit no draft is empty |
| StructureExtraction.FacetsInvert | packs/activity_normalizer/annotation_extractor.py:28-44 | the facet maps invert each other |
| StructureExtraction.RequestedIff | packs/activity_normalizer/annotation_extractor.py:79-84 | a facet asks for the one kind it is the facet of, a foreign one for nothing |
| StructureExtraction.LineFound | packs/activity_normalizer/annotation_extractor.py:127-131 | the search for a line from the cursor never fails |
| StructureExtraction.LineSpans | packs/activity_normalizer/annotation_extractor.py:121-146 | one span for each visible line, quoting the content exactly |
| StructureExtraction.CleanLineIff | packs/activity_normalizer/extractors.py:69-75 | the extractors see exactly the cleaned lines that are not empty, and none only for a blank content |
| StructureExtraction.Anchor | packs/activity_normalizer/annotation_extractor.py:149-167 | the anchor quotes the content: first verbatim occurrence, else first related line, else first line |
| StructureExtraction.AnnotationExtract | packs/activity_normalizer/annotation_extractor.py:76-118 | exactly the legacy drafts of the requested kinds, with unfiltered ordinals, each anchored exactly |
| CandidateProjection.CandidateStore.CreateCandidates | packs/activity_normalizer/behaviors.py:303-325 | the legacy loop writes one candidate for each draft with its ordinal |
| CandidateProjection.CandidateStore.ProjectStructureCandidates | packs/activity_normalizer/behaviors.py:800-905 | an annotation mints its candidate unless it is empty or the candidate is already there |
| CandidateProjection.MigrationCreatesNothing | packs/activity_normalizer/behaviors.py:800-905 | projecting any facets over evidence the legacy path has extracted creates nothing, however the store has grown since |
| CandidateProjection.PathsAgree | packs/activity_normalizer/behaviors.py:800-905 | over untouched evidence the projector writes the very candidates the legacy path writes for the requested kinds, in the same order |
| CandidateProjection.ProjectionIdempotent | packs/activity_normalizer/behaviors.py:831-874 | projecting the same annotations again changes nothing |
| CandidateProjection.MintsIff | packs/activity_normalizer/behaviors.py:831-874 | an annotation mints one candidate if and only if it is not empty and no memory of its text and evidence, or no typed candidate of its identity, is there |
| DisabledProjection.NeverRevived | packs/activity_normalizer/behaviors.py:800-905 | however extractions, disables and projections follow one another, a candidate a disable killed stays dead and keeps its place and identity |
| DisabledProjection.NeverMintedAgain | packs/activity_normalizer/behaviors.py:831-874 | nor does any later projection mint it again |
| DisabledProjection.RunKept | packs/activity_normalizer/behaviors.py:251-332 | over every mix of extractions, disables and projections: the lifecycle stays sound, records list candidates of their own identity, and only listed candidates are ever closed |
| DisabledProjection.OpenIffUnlisted | packs/activity_normalizer/tools.py:106-197 | however a run goes before and after a disable with a proper scope, a typed candidate under a disabled identity is open if and only if no extraction record lists it |
| DisabledProjection.MintedStaysOpen | packs/activity_normalizer/tools.py:165-190 | a minted candidate is in no extraction record, so no disable ever closes it |
| DisabledProjection.MintedMirrors | packs/activity_normalizer/behaviors.py:828-905 | minting beside the lifecycle is the projection of the migration |
| DisabledProjection.DisabledVersionMints | packs/activity_normalizer/behaviors.py:862-871 | for every annotation: a version disabled from the start still has an open candidate minted under its identity, which no extraction could add |
| ReplayArtifacts.RefDecodes | packs/activity_normalizer/replay.py:41-44 | a canonical reference decodes to the digest it encodes |
| ReplayArtifacts.RefAcceptedIff | packs/activity_normalizer/replay.py:74-84 | the accepted references of a digest are its canonical and its legacy form, and no others |
| ReplayArtifacts.LocatorRoundTrip | packs/activity_normalizer/replay.py:47-71 | parsing a printed locator gives back reference and digest |
| ReplayArtifacts.DigestIff | packs/activity_normalizer/replay.py:41-44 | a digest is 64 lower-case hexadecimal digits |
| ReplayArtifacts.LocatorReads | packs/activity_normalizer/replay.py:47-60 | a locator is the prefix, two digits and the digest in dotted chunks of eight, place by place |
| ReplayArtifacts.LocatorAcceptedIff | packs/activity_normalizer/replay.py:62-71 | a locator is accepted for a digest if and only if it is the printed one |
| ReplayArtifacts.LocatorErrors | packs/activity_normalizer/replay.py:62-71 | every rejected locator is an integrity error |
| ReplayArtifacts.ArtifactStore.StoreReplayArtifact | packs/activity_normalizer/replay.py:96-111 | a store writes once per digest and fails exactly when the file already there is corrupt |
| ReplayArtifacts.ArtifactStore.ReadArtifact | packs/activity_normalizer/replay.py:114-132 | reading fails or returns the file's bytes as specified, checks in the source's order |
| ReplayArtifacts.ReadBackIff | packs/activity_normalizer/replay.py:96-132 | after any stores a payload reads back unchanged if and only if it fits the bound and was first with its digest |
| ReplayArtifacts.ReadBack | packs/activity_normalizer/replay.py:96-132 | without a collision every stored payload within the bound reads back unchanged |
| ReplayArtifacts.ReadVerified | packs/activity_normalizer/replay.py:114-132 | whatever happened to the files, a successful read has the expected digest and size |
| ReplayArtifacts.ReadFails | packs/activity_normalizer/replay.py:114-132 | a read is unavailable exactly when the file is missing or over the bound, and else fails for integrity |
| AdoptionChassis.Chassis.AdoptProposal | packs/evolution/adopt.py:100-120 | the executor opens a ticket exactly for a trialed or pending proposal |
| AdoptionChassis.Chassis.DisablePromotion | packs/evolution/adopt.py:122-137 | the executor opens a disable ticket exactly for an existing promotion |
| AdoptionChassis.Chassis.ProcessAdopt | packs/evolution/adopt.py:189-317 | the stages in order, each of which may abort, make exactly the specified list of writes and give the specified outcome |
| AdoptionChassis.Chassis.LoadAndPromote | packs/evolution/adopt.py:252-317 | load, late conflict, marker, recorder and supersession in that order |
| AdoptionChassis.Chassis.PromotionRecorder | packs/evolution/behaviors.py:141-171 | the loop flips the first loading promotion of the fork and marks its proposal promoted |
| AdoptionChassis.Chassis.SupersedePriorActives | packs/evolution/adopt.py:321-344 | exactly the other active promotions of the pack are disabled, in order, and point at the new one |
| AdoptionChassis.Chassis.ProcessDisable | packs/evolution/adopt.py:347-385 | deregistration, disabling, rollback, proposal and ticket in that order, unless the promotion was rolled back already |
| AdoptionChassis.Chassis.ProcessTicket | packs/evolution/adopt.py:185-385 | a ticket makes its writes in order, and together they come to its closed form |
| AdoptionChassis.Chassis.ProcessAdoptionTickets | packs/evolution/adopt.py:169-318 | a sweep processes exactly the tickets open at its start, in order |
| AdoptionTickets.LoadsIff | packs/evolution/adopt.py:189-262 | a pack is loaded and a promotion recorded if and only if the proposal is open to adoption, the bundle has the reviewed hash, the gates pass, the latest passing trial names a stored fork, and the promote is free of conflicts; else the ticket aborts and nothing is taken |
| AdoptionTickets.PinHolds | packs/evolution/adopt.py:202-214 | a bundle that fails its pin is never taken: the ticket aborts and the proposal is suspended |
| AdoptionTickets.AbortStatus | packs/evolution/adopt.py:202-248 | the status each other abort leaves on its proposal: rejected or suspended, gated, in conflict |
| AdoptionTickets.OutcomeTells | packs/evolution/adopt.py:189-300 | what an adopt ticket answers: the first failure in the order of the checks, else whether the promote went through |
| AdoptionTickets.LoadedIsProposals | packs/evolution/adopt.py:252-275 | what is loaded and recorded is the proposal's bundle under its pack name, for the fork of its latest passing trial |
| AdoptionTickets.PromoteDecides | packs/evolution/adopt.py:278-300 | with the promote the marker is in the log and the ticket done; without it the promotion is left loading and the proposal in conflict |
| AdoptionTickets.DisableExactly | packs/evolution/adopt.py:347-385 | a disable ticket takes down its promotion, records one rollback, deregisters the pack if the runtime does, and moves no other promotion |
| AdoptionTickets.DisableIdle | packs/evolution/adopt.py:348-363 | a disable ticket of a promotion rolled back before, or of none, only closes |
| AdoptionTickets.NothingUncleared | packs/evolution/adopt.py:189-262 | over every run, deaths and restarts included, in which no ticket is cleared, nothing is ever loaded, recorded or promoted |
| Adoption.ProcessedByWrites | packs/evolution/adopt.py:185-385 | for every ticket and every answer of the runtime the list of its writes comes to the closed form |
| AdoptionRuns.RunSafe | packs/evolution/adopt.py:305-315 | over every run of requests, trials, sweeps and restarts, with processes dying after any write of a ticket, a request or a boot: at most one active promotion a pack name, at most one rollback a promotion, rolled back means disabled |
| AdoptionSafety.ProcessedSafe | packs/evolution/adopt.py:169-385 | each single ticket keeps those invariants and never revives or rewrites a promotion |
| AdoptionSafety.PartialSound | packs/evolution/adopt.py:185-385 | every prefix of a ticket's writes keeps forks and rollbacks in order and revives nothing, though not always one active promotion |
| AdoptionRuns.SweepSettles | packs/evolution/adopt.py:181-187 | every ticket open at the start of a sweep ends done or aborted; no other ticket moves |
| AdoptionSafety.TicketClosed | packs/evolution/adopt.py:161-166 | a processed ticket is closed and no other ticket changes |
| AdoptionSafety.AbortKeepsActive | packs/evolution/adopt.py:189-293 | a ticket that ends aborted leaves the active set as it was |
| AdoptionSafety.AdoptTouchesOwnProposal | packs/evolution/adopt.py:194-200 | an adopt ticket changes no proposal but its own, and never one that needs its owner |
| AdoptionSafety.RecorderStaysOnProposal | packs/evolution/behaviors.py:152-170 | the promotion the recorder flips is of the adopted proposal and its pack |
| AdoptionSafety.AdoptedPromotions | packs/evolution/adopt.py:252-317 | the promotions after a successful adoption, each in closed form |
| AdoptionSafety.AdoptionActiveIff | packs/evolution/adopt.py:301-315 | the new promotion ends active if and only if no earlier promotion of its fork is still loading |
| AdoptionExamples.LateConflictExample | packs/evolution/adopt.py:278-293 | concrete run: two tickets for one proposal in one sweep, the first promote fails late, the second succeeds, and the running pack has no active promotion |
| AdoptionRuns.DisabledForGood | packs/evolution/adopt.py:321-385 | a disabled promotion stays disabled in every later state, wherever processes die |
| AdoptionDeaths.DeathKeepsPack | docs/evolution-design.md:836-868 | a process dies after any number of writes of a ticket: a pack with an intact bundle and an active promotion, other than one the ticket disables, has one after the restart |
| AdoptionDeaths.DisableResumes | packs/evolution/adopt.py:359-369 | a disable interrupted anywhere and processed again ends with its promotion disabled and rolled back once |
| AdoptionExamples.TwoActiveExample | packs/evolution/boot.py:246-270 | concrete run: the process dies between recorder and supersession, two promotions are active, and boot supersedes the older |
| RunningPacks.AdoptedAgreesIff | packs/evolution/adopt.py:254-293 | an adopt ticket keeps the running bundles those of the active promotions if and only if it is not a late abort while the pack has an active promotion of another proposal |
| AdoptionExamples.LateUpdateExample | packs/evolution/adopt.py:278-293 | concrete run: after a late abort the runtime runs the aborted bundle under the live promotion's name |
| RunningPacks.DisablingAgreesIff | packs/evolution/adopt.py:358-369 | a disable keeps that agreement if and only if it does not deregister the pack of another active promotion |
| AdoptionExamples.LivePackExample | packs/evolution/adopt.py:364-369 | concrete run: disabling a superseded promotion takes down the pack of the live one |
| AdoptionChassis.Chassis.ReloadAdoptedPacks | packs/evolution/boot.py:164-285 | boot heals or parks the loading promotions, closes the healed proposals' tickets, supersedes older active ones and reloads the survivors as specified |
| AdoptionBoot.BootLeavesOneActive | packs/evolution/boot.py:246-270 | whatever promotions boot finds, it leaves at most one active a pack name |
| AdoptionBoot.BootReads | packs/evolution/boot.py:164-285 | what boot makes of one promotion: a disabled one stays, a loading one is healed by its marker or disabled, one that goes down for a later one names it |
| AdoptionBoot.BootKeepsPackIff | packs/evolution/boot.py:198-270 | a pack with an intact bundle has an active promotion after boot if and only if one was active or has its marker in the log |
| RunningPacks.BootAgreesIff | packs/evolution/boot.py:242-285 | after boot the runtime runs the bundle of every active promotion if and only if no sole active promotion has a later one of its pack |
| RunningPacks.DeathAgreesIff | packs/evolution/boot.py:226-278 | a death inside an adopt ticket costs the next boot that agreement if and only if the new promotion was recorded without its marker and the pack has a sole active promotion |
| AdoptionExamples.FailedUpdateExample | packs/evolution/boot.py:226-278 | concrete run: after an update fails late a restart leaves the active promotion's pack down |
| AdoptionExamples.InterruptedUpdateExample | packs/evolution/boot.py:226-278 | concrete run: the same after a process that died between load and promote |
| Hygiene.ScanLines | packs/communication/hygiene.py:59-98 | the scan with its cursor, stop flag and counters gives the kept spans and the counts |
| Hygiene.LinesConserved | packs/communication/hygiene.py:70-98 | kept lines and the quoted, signature, boilerplate and tracking counts add up to the visible lines |
| Hygiene.KeptSpansExact | packs/communication/hygiene.py:94-98 | kept spans quote the body exactly, are trimmed, non-empty, ordered and disjoint |
| Hygiene.KeptBeforeStop | packs/communication/hygiene.py:74-86 | nothing at or after a stop marker is kept |
| Hygiene.KeptIff | packs/communication/hygiene.py:76-108 | a line is kept if and only if no earlier line ended the message, it is visible, and no pattern and no quote mark matches it |
| Hygiene.CountedIff | packs/communication/hygiene.py:76-103 | what each other line is counted as, in terms of the patterns |
| Hygiene.KeptSpansAre | packs/communication/hygiene.py:104-108 | the kept spans are the trimmed texts of the kept lines, with their places |
| Hygiene.CutSelections | packs/communication/hygiene.py:109-131 | the budget loop selects whole pieces, then at most one cut piece, up to the budget; truncated exactly when text is left over |
| Hygiene.DisplayIsJoin | packs/communication/hygiene.py:100 | stripping the joined display removes nothing, and it is empty only when nothing was kept |
| Hygiene.SelectConversationContent | packs/communication/hygiene.py:44-141 | state, display, counts, selections, flags and truncation are the specified ones in every case |
| Hygiene.SelectionsExact | packs/communication/hygiene.py:109-141 | after removing the offset each selection is a non-empty exact slice of the body, ordered, disjoint, and before the first stop marker |
| Hygiene.SelectionLength | packs/communication/hygiene.py:109-141 | a ready result selects the lesser of the budget and the kept characters, and is truncated exactly when that cuts something |
| Text.LinesTile | packs/communication/hygiene.py:68-73 | the lines of a text tile it: each sits at the cursor's offset |
| Text.LinesEnd | packs/communication/hygiene.py:68-73 | lines end where boundaries are, a carriage return and line feed being one, and nowhere else |
| Text.CleanIsWords | packs/activity_normalizer/extractors.py:41-42 | a cleaned text is the words of the text with single spaces between them, cut at the limit |
| Conversation.Conversations.MaterializeConversationMessage | packs/communication/conversation.py:61-408 | one call with its shared state writes the specified graph and uses the specified request budget |
| Conversation.Conversations.LoadThread | packs/communication/conversation.py:114-142 | the thread cache returns the thread's stored data, creating it once |
| Conversation.Conversations.JoinParticipants | packs/communication/conversation.py:144-219 | the participant loops create or merge each address once, in order of first appearance |
| Conversation.Conversations.UpsertMessage | packs/communication/conversation.py:221-276 | the message is created or updated and the unread counter moves by the change of its flag |
| Conversation.Conversations.WriteObjects | packs/communication/conversation.py:114-293 | thread, participants and message end as specified and the cache stays coherent |
| Conversation.Conversations.InterpretBody | packs/communication/conversation.py:295-402 | one run per identity, one model request while the budget lasts, else the deterministic status |
| Conversation.CountsKeptIff | packs/communication/conversation.py:269-293 | a call keeps both counters of every thread right if and only if it does not move a message to another thread |
| Conversation.RunCounts | packs/communication/conversation.py:269-293 | over every run of batches in which messages stay in their threads the counters are the numbers of messages and of unread ones |
| Conversation.NeverClips | packs/communication/conversation.py:272-282 | in such runs the unread counter is never clipped at 0 |
| Conversation.MovingExample | packs/communication/conversation.py:269-293 | concrete inputs: a message moved to a new thread breaks both counters and is clipped |
| Conversation.RepeatChangesNothing | packs/communication/conversation.py:61-408 | repeating a call without reprocess, in the same or a later batch, changes no object, counter or request |
| Conversation.ReprocessAddsRun | packs/communication/conversation.py:314-327 | after every run of batches a call with reprocess opens exactly one more run of its message |
| Conversation.BatchWithinLimit | packs/communication/conversation.py:337-364 | a batch, from any graph, makes at most as many model requests as the effective limit, and each is counted once |
| Conversation.BatchStarts | packs/communication/conversation.py:91-112 | a batch of a run is such a batch from the graph the run has reached |
| Conversation.RequestsWithinLimit | packs/communication/conversation.py:337-364 | over every run of batches the current batch is within the limit and each closed one has added at most the limit |
| Conversation.ConfiguredLimitKeptIff | packs/communication/conversation.py:344 | every batch of every run stays within the configured limit if and only if that limit is not 0 |
| Conversation.RequestIff | packs/communication/conversation.py:330-368 | a call that opens a run asks a model if and only if the message is ready, an extractor is routed and the batch has requests left |
| Conversation.UnreadyAsksNothing | packs/communication/conversation.py:330-370 | a message that is not ready asks nothing; its new run is held or suppressed |
| Conversation.RequestsAreSelected | packs/communication/conversation.py:346-370 | over every run of batches there is one model request for each selected run |
| Conversation.OpensIff | packs/communication/conversation.py:315-330 | which run a call opens: the first of this message, revision, selection, profile and extractors, or with reprocess one more |
| Conversation.MergedExactly | packs/communication/conversation.py:144-156 | the people of a call: every address that is not blank, once, in order of first appearance, with all its roles |
| Conversation.CallJoins | packs/communication/conversation.py:144-215 | after a call every address it names is a participant of its thread with its old and new roles, and no one else has become one |
| Conversation.ThreadExactly | packs/communication/conversation.py:264-291 | subject, labels, references, counters and time of the thread after a call |
| Conversation.MessageExactly | packs/communication/conversation.py:217-262 | the message is what the call says of it and no other message changes |
| Conversation.DedupTwice | packs/communication/conversation.py:205-207 | merging the same references again changes nothing |
| AttentionScores.ScoreRange | packs/attention/behaviors.py:57-84 | a score lies in 0..999 |
| AttentionScores.SupportRaises | packs/attention/behaviors.py:57-84 | more support never lowers a score |
| AttentionScores.OppositionLowers | packs/attention/behaviors.py:57-84 | more opposition never raises a score |
| AttentionScores.SwapShares | packs/attention/behaviors.py:57-84 | a score and its swapped counterpart add up to 1000 when the division is exact, else to 999 |
| AttentionScores.ConfidenceMonotone | packs/attention/behaviors.py:57-84 | confidence never falls with evidence and is at most 1000 |
| AttentionScores.ConfidenceFullIff | packs/attention/behaviors.py:57-84 | confidence is full exactly from the policy's amount of evidence on |
| AttentionScores.NoEvidenceIsDefault | packs/attention/tools.py:233-310 | without evidence both scores are the default of a missing vector, and only then unranked or unproven |
| AttentionScores.ImportanceMeans | packs/attention/behaviors.py:57-72 | what score, confidence and band of a subject say of its support and opposition, as cross-multiplied inequalities |
| AttentionScores.TrustMeans | packs/attention/behaviors.py:74-84 | the same for the trust in a source |
| AttentionRecorder.Recorder.RecordAttentionObservation | packs/attention/tools.py:30-85 | one observation is stored, known, or refused, as specified |
| AttentionRecorder.Recorder.RecordInteractionBatch | packs/attention/tools.py:88-189 | a batch is refused as a whole before anything is written, known, or written row by row |
| AttentionRecorder.RunUnique | packs/attention/tools.py:75-84 | over every run of recordings each observation id is stored once |
| AttentionRecorder.AnswerIff | packs/attention/tools.py:30-85 | over every run: when an observation is refused, known or new, in terms of what is stored |
| AttentionRecorder.BatchAnswerIff | packs/attention/tools.py:88-189 | a batch is new if and only if it is within the size limit, its id is not taken and no row is at fault; otherwise nothing is written |
| AttentionRecorder.StepKeeps | packs/attention/tools.py:75-189 | no recording changes or drops anything stored |
| AttentionRecorder.BatchKeptIff | packs/attention/tools.py:151-169 | an accepted batch keeps all its rows if and only if rows that share an id are equal |
| AttentionRecorder.LostRowExample | packs/attention/tools.py:151-169 | concrete input: two different rows with one id, the batch is accepted and the second row is lost |
| AttentionRecorder.BatchAgain | packs/attention/tools.py:111-122 | sending a batch again changes nothing, whatever happened in between |
| AttentionRecorder.RecordedVectors | packs/attention/behaviors.py:145-210 | every importance vector is the fold of the recorded observations, whatever the order and repetition of their events |
| EvidenceFold.VectorIsFold | packs/attention/behaviors.py:161-188 | over every run of evidence a vector is the sum over its set of distinct pieces, and exists exactly when there is one |
| EvidenceFold.OrderAndRepetitionIrrelevant | packs/attention/behaviors.py:161-188 | reordering and repeating pieces of evidence changes no vector |
| EvidenceFold.FeaturesBalance | packs/attention/behaviors.py:257-262 | in every vector of every run, of importance or of trust, the feature totals add up to support plus opposition |
| ImportanceVectors.Projector.ImportanceVectorProjector | packs/attention/behaviors.py:145-210 | one observation updates its vector as specified, a repeated id or an empty key changes nothing |
| ImportanceVectors.VectorIsFold | packs/attention/behaviors.py:145-210 | over every run a vector is the sum over its set of distinct observations, and exists exactly when there is one |
| ImportanceVectors.OrderAndRepetitionIrrelevant | packs/attention/behaviors.py:161-192 | reordering and repeating observations changes neither evidence, features, score, confidence nor band |
| ImportanceVectors.FeaturesBalance | packs/attention/behaviors.py:166-188 | in every vector of every run the feature totals add up to support plus opposition |
| ImportanceVectors.ContributionSplits | packs/attention/behaviors.py:171-187 | what an observation contributes is exactly its support plus its opposition |
| ImportanceVectors.KeysFilled | packs/attention/behaviors.py:149-157 | no vector of any run has an empty context, objective or horizon: empty ones are the default, or none |
| ImportanceVectors.ObservationAdds | packs/attention/behaviors.py:161-188 | what each signal adds to support and opposition; explicit signals count only as the owner's act |
| ImportanceVectors.ObservedWhere | packs/attention/behaviors.py:142-165 | which one vector an observation concerns, and when it changes none |
| ImportanceVectors.SignalMovesScore | packs/attention/behaviors.py:161-192 | a signal for a subject never lowers its score, a signal against it never raises it |
| TrustVectors.Projector.SourceTrustVectorProjector | packs/attention/behaviors.py:235-286 | the loop over the named sources updates each source's vector as specified and skips an event a vector already holds |
| TrustVectors.VectorIsFold | packs/attention/behaviors.py:213-286 | over every run a source's vector is the scored sum over the distinct events naming it, however often they are delivered or repeat the source |
| TrustVectors.SourcesIff | packs/attention/behaviors.py:213-233 | of a list of sources exactly those with a reference are counted |
| TrustVectors.SingleSource | packs/attention/behaviors.py:213-233 | an outcome without a list names one source, by its reference or else its surface, or none |
| TrustVectors.PieceMeans | packs/attention/behaviors.py:235-262 | what each kind of outcome adds to the support of a source and to the challenge, and under which key |
| TrustVectors.OutcomeMovesScore | packs/attention/behaviors.py:235-275 | a helpful outcome never lowers the score of its source, any other never raises it |
| TrustVectors.OrderAndRepetitionIrrelevant | packs/attention/behaviors.py:235-286 | reordering and repeating events changes neither evidence, features, score, confidence nor verdict |
| Ranking.SortSorts | packs/attention/tools.py:344-354 | the stable sort gives a sorted permutation |
| Ranking.SortedUnique | packs/attention/tools.py:344-354 | without ties two sorted lists of the same rows are equal |
| Ranking.ChosenGuarantees | packs/attention/tools.py:330-363 | at most limit distinct subjects, with as many unranked ones as slots and supply allow |
| Ranking.NothingBetterOmitted | packs/attention/tools.py:344-363 | no omitted ranked subject sorts before a selected one |
| Ranking.OmittedNotMoreImportant | packs/attention/tools.py:344-363 | no omitted ranked subject has a higher score than a selected one, at equal score more confidence, or at equal both an earlier reference |
| Ranking.SelectionFalls | packs/attention/tools.py:344-363 | along the selection the rows never rise in score, confidence or reference order |
| Ranking.ReserveIsLeast | packs/attention/tools.py:350-356 | the reserve goes to the unranked subjects with the least hashes |
| Ranking.TextLessIff | packs/attention/tools.py:344-349 | references compare by their first different character, a proper prefix first |
| Ranking.RowReads | packs/attention/tools.py:233-275 | a subject's row is what its vector says; a missing vector reads 500, 0, unranked |
| Ranking.ChoicesDisjoint | packs/attention/tools.py:357-363 | no subject is selected both for importance and for exploration |
| Ranking.RankedIgnoresOrder | packs/attention/tools.py:334-363 | the result does not depend on order or repetition of the references |
| Outcomes.OutcomePack.RecordTerminalOutcome | packs/eval_outcome/tools.py:120-198 | records once, accepts the same value again, refuses another value, as specified |
| Outcomes.OutcomePack.RecordMaintenanceOutcome | packs/eval_outcome/tools.py:274-359 | one record per contribution key, with the source's order of checks |
| Outcomes.OutcomePack.RecordExplicitVerdict | packs/eval_outcome/tools.py:201-271 | an explicit verdict creates its evaluation when none is given and records the terminal value |
| Outcomes.OutcomePack.SupersedeEvaluation | packs/eval_outcome/tools.py:362-431 | a correction adds the replacement, the supersession and the new terminal value |
| Outcomes.OutcomePack.EvaluationOutcomeCapture | packs/eval_outcome/behaviors.py:159-208 | the capture records exactly what subject type and judgment call for |
| Outcomes.OutcomePack.ArtifactReliabilityProjector | packs/eval_outcome/behaviors.py:40-116 | the behavior looks up, copies and replaces its artifact's tallies as the projection function says |
| Outcomes.ProjectionCounts | packs/eval_outcome/behaviors.py:64-80 | one event raises one tally of its artifact by one and no other tally of any artifact |
| Outcomes.RunSound | packs/eval_outcome/tools.py:108-198 | over every run of all writers and the capture: at most one terminal record an evaluation, one record a contribution key |
| Outcomes.CaptureAgrees | packs/eval_outcome/behaviors.py:159-208 | however the run goes on, capturing an evaluation that a verdict or correction created changes nothing and never conflicts |
| Outcomes.ConflictIff | packs/eval_outcome/tools.py:145-151 | after every run a capture conflicts if and only if the evaluation is one to capture and the explicit verdict recorded on it differs from its judgment |
| Outcomes.CaptureRecords | packs/eval_outcome/behaviors.py:184-208 | the capture of an undecided evaluation records the kind its judgment means, for work it judges, and nothing for any other |
| Outcomes.ContradictionRecords | packs/eval_outcome/behaviors.py:167-183 | a contradicted memory with an evidence revision records one contradiction, about the memory itself |
| Outcomes.VerdictRecords | packs/eval_outcome/tools.py:201-271 | an explicit verdict records helped, hurt or neutral as it accepts, rejects or abstains |
| Outcomes.TerminalIff | packs/eval_outcome/tools.py:120-198 | a terminal outcome is recorded if and only if its evaluation exists and is open and its subject has an id and a kind; else nothing changes |
| Outcomes.VerdictCreates | packs/eval_outcome/tools.py:201-271 | the evaluation a verdict creates for a subject without one, and how it decides it |
| Outcomes.CorrectionRecords | packs/eval_outcome/tools.py:362-431 | over every run: the new evaluation and the two records with which a correction supersedes a decided one |
| Outcomes.MaintainIff | packs/eval_outcome/tools.py:274-359 | a maintenance outcome is recorded if and only if it decides nothing, has a revision and a named artifact, names no missing evaluation, and is new |
| Outcomes.ContraryVerdictExample | packs/eval_outcome/tools.py:145-151 | concrete run in which such a verdict makes the capture conflict |
| Outcomes.RecordsExplained | packs/eval_outcome/tools.py:120-198 | every terminal record has the value of its judgment or of the explicit verdict recorded on its evaluation |
| Outcomes.TalliesCountRecords | packs/eval_outcome/behaviors.py:40-116 | over every run tally plus pending events equals records plus redelivered events, for each artifact and kind |
| ChatSessions.RestartMovesInputIff | packs/chat/behaviors.py:71-148 | emptying the caches sends an input elsewhere if and only if it names no object and the registry held its user, and then to a new session |
| ChatSessions.ChatPack.ChatIngester | packs/chat/behaviors.py:91-270 | resume by id, by registry or open a session; the new turn, the counter and the caches are the specified ones |
| ChatSessions.ChatPack.ChatContextAssembler | packs/chat/behaviors.py:318-355 | filter, sort and cut give the specified window |
| ChatSessions.ChatPack.ChatResponder | packs/chat/behaviors.py:945-993 | the reply is written to the message's turn, by cache or by scan, and nowhere else |
| ChatSessions.RunConsistent | packs/chat/behaviors.py:91-270 | when each session has one user, over every run with restarts and other objects anywhere: turns are numbered 1..n, turn counts and registry entries agree |
| ChatSessions.OpensInName | packs/chat/behaviors.py:91-270 | an input that resumes no session opens one in the name of its user, or of the unknown user |
| ChatSessions.IngestedNumbered | packs/chat/behaviors.py:124-164 | an input keeps the numbering without gaps while the registry is current |
| ChatSessions.RegistryKeptIff | packs/chat/behaviors.py:146-148 | an input keeps the registry current if and only if no other user's entry names its session |
| ChatSessions.SharedSessionExample | packs/chat/behaviors.py:146-148 | concrete run: two users in one session repeat a turn number |
| ChatSessions.DeliveryIgnoresCache | packs/chat/behaviors.py:978-986 | delivery picks the same turn on a cache hit and on a miss |
| ChatSessions.ContextIsLatestTurns | packs/chat/behaviors.py:340-355 | for the session's latest message the context is exactly its latest earlier turns up to the limit, in order |
| ChatSessions.PriorIsStable | packs/chat/behaviors.py:340-352 | whatever the turn numbers are, the context is the stable sort of the other turns of the session |
| ChatSessions.ContextLooksBackIff | packs/chat/behaviors.py:340-355 | the context holds earlier turns only if and only if no later turn was ingested before it is assembled |
| ChatSessions.LateContextExample | packs/chat/behaviors.py:340-355 | concrete run: the context of the first of two inputs is the second input's turn |
| RuntimeExecutor.RuntimeExecutor.RunInline | packs/demo_server.py:75-80 | a call on the worker thread runs in place: outcome and graph are those of calling the closure directly, queue and futures untouched |
| RuntimeExecutor.RuntimeExecutor.Submit | packs/demo_server.py:81-82 | a call on a request thread queues the closure with a fresh future and blocks the thread on it |
| RuntimeExecutor.SubmitTaken | packs/demo_server.py:81-82 | a call is queued last under a fresh unset future for which its thread waits, unless the thread waits already |
| RuntimeExecutor.RuntimeExecutor.Result | packs/demo_server.py:83 | the call returns the outcome of its own future |
| RuntimeExecutor.RuntimeExecutor.ServeNext | packs/demo_server.py:65-73 | one loop iteration reaches the state the step by step worker reaches in as many steps as the call takes |
| RuntimeExecutor.TicksSettle | packs/demo_server.py:65-80 | undisturbed, the worker with its stack of inline calls ends as the direct call does |
| RuntimeExecutor.RunSerial | packs/demo_server.py:65-83 | over every interleaving: submission order, one closure at a time, graph and outcomes of the serial run, each thread receiving its own outcome once |
| RuntimeExecutor.FinishedExactlyWhen | packs/demo_server.py:65-83 | a closure is finished exactly when the worker has taken the steps of it and of those submitted before it |
| RuntimeExecutor.WorkWhileUnfinished | packs/demo_server.py:65-83 | the worker has something to do exactly while some future is unset, so no call waits on itself |

## Left out

- Semantic signal capture in the attention pack: it copies an event into an observation.
- Settling of interpretation runs, native projections and follow-up candidates in the conversation pack: single-branch updates.
- HTTP handlers, language model providers, SQLite, manifests, connectors, the email, codebase and bridge adapters.
- Keyword classifiers, reply gating, profile registry, entity extraction from text: mostly single-branch.
- EditDistance.EditDistanceRatio: does not model floating-point rounding; ratios and thresholds are real numbers.
- EntityIndex.EntityPack.EntityResolver: does not model the created relations and the mention's patch, only the decision and the new entity.
- EntityIndex.FlaggedPairsIgnoreOrder: speaks of how often a pair is flagged; which entity is named first, and in which order candidates appear, does depend on arrival.
- AttentionRecorder.Recorder.RecordInteractionBatch: observation ids are taken as given; the ids made for rows without one, and schema validation of the rows, are not part of this model.
- EvidenceLedger.Ledger.NormalizeAcquiredItem: does not model the acquired and derived text fields, the relations, the `enabled` switch and the optional extraction call.
- EvidenceLedger.Ledger.FulfillInvalidationRequest: does not model the request's own fulfilled status nor the emitted events.
- ExtractionLifecycle.Extraction.RunExtraction: does not model candidate contents (see CandidateProjection) nor the stages of a re-extraction before it runs the extractor.
- StructureExtraction.AnnotationExtract: does not model negative text limits, which Python reads as counting from the end.
- CandidateProjection.CandidateStore.CreateCandidates: does not model record ids, the memory category and relations.
- CandidateProjection.PathsAgree: agreement is on identity, text, confidence and fields; metadata, in which the two paths differ, is not part of this model.
- CandidateProjection.CandidateStore.ProjectStructureCandidates: does not model record ids, metadata and relations, in which the two paths differ; inactive annotations and unknown facets are not events of the model.
- ReplayArtifacts.ArtifactStore.StoreReplayArtifact: does not model file-system failures, temporary files and symbolic links.
- ReplayArtifacts.ArtifactStore.ReadArtifact: does not model inline payloads and reference-only evidence, which never reach the store.
- AdoptionChassis.Chassis.ProcessAdoptionTickets: does not return the list of outcomes and does not model gate results, relations, status notes, what a promotion copies from its fork, nor events other than the recorder's while the runtime settles.
- AdoptionChassis.Chassis.ReloadAdoptedPacks: works phase by phase where the source works pack by pack, which share no promotion; does not model the reflections boot raises nor materialisation errors other than a hash mismatch.
- AdoptionRuns.RunSafe: trials are given fork run ids of their own, as the runtime that creates them does; a boot that dies may have made any of the writes a boot makes, in any order.
- RunningPacks.AdoptedAgreesIff: a bundle stands for its proposal, to whose recorded hash every load is pinned.
- AdoptionSafety.AdoptTouchesOwnProposal: speaks of adopt tickets only; a disable ticket does overwrite the status of a proposal that needs its owner.
- Conversation.Conversations.MaterializeConversationMessage: one batch reads its own writes, so that the state's lookups by identity are the graph's; a batch over a reader that lags behind the graph, display names, mention metadata and relations are not part of this model.
- Conversation.Conversations.JoinParticipants: does not model display names and relations.
- Ranking.RankedIgnoresOrder: the exploration hash is an arbitrary function of the subject; the context and the objective it also hashes are fixed in one call.
- Outcomes.OutcomePack.RecordTerminalOutcome: resolution of an outcome's subject is an arbitrary answer; readers that lag behind the graph are not part of this model.
- Outcomes.OutcomePack.RecordExplicitVerdict: the subject of a new evaluation is given; finding it from a usage id is not part of this model.
- Outcomes.OutcomePack.RecordMaintenanceOutcome: contribution keys are tuples, so that two different tuples whose joined texts coincide are kept apart.
- Outcomes.OutcomePack.ArtifactReliabilityProjector: does not model verdict, multiplier and eligibility, which depend on the latest outcome only, nor the list of event ids.
- ChatSessions.ChatPack.ChatIngester: does not model the source object, reply gate and adapter data, nor failing graph calls; an object of another kind is taken to carry no turn count of its own.
- ChatSessions.ChatPack.ChatContextAssembler: gives the turns; the reply gate and the transcript text made of them are not part of this model. The message-to-session cache is written and cleared but never read.
- RuntimeExecutor.RunSerial: closures end and their futures are private to `run`, so cancellation does not occur; a closure's writes are functions of the graph.
