# Verified model of the sales backend's conversation core

This project models the part of a multi-tenant sales backend that turns customer messages into profiles, scores,
handoffs and questions, and proves what that part keeps over every input, every run and every interleaving.

| files | what they model |
|---|---|
| `Protocol`, `ProtocolLeases`, `ProtocolFencing`, `ProtocolEffects`, `ProtocolCounting`, `ProtocolDoNotContact`, `ProtocolProfile`, `ProtocolHistory`, `ProtocolSignals`, `ProtocolExamples`, `StateMachines` | the conversation processing protocol: shared rows, atomic transactions, workers whose leases expire and are taken over, and the properties of all its runs |
| `UnitOfWork` | the same transactions as they work, statement by statement with rollback, each equal to its atomic step |
| `Profile`, `ProfileTheorems`, `ProfileWinner`, `ProfileHistory`, `ProfileRepository`, `Signals`, `SignalHistory` | the profile pipeline: resolve, reconcile, accept, plan, persist, reload, and the activation and loading of stored signals |
| `Outbox`, `OutboxPublisher` | the conversation outbox with fencing tokens |
| `Synthetic`, `SyntheticTheorems`, `SyntheticPipeline` | the older outbox, queue and inbox pipeline, whose leases carry no token |
| `Scoring`, `ScoringTheorems`, `ScoringEngine` | the scoring engine over arbitrary valid policies |
| `Context`, `Extraction`, `Composition` | context selection, the retry loop over an arbitrary provider, and the parts put together |
| `Wrappers`, `Sorting` | helpers: `Option`, filtering, and a stable sort |

`dafny verify dfyconfig.toml` checks the whole project.

## How the model is built

- Every database transaction is one step of `Protocol.Next`; an abort leaves the rows as they were. A run is any sequence
  of ingest, claim, prepare, extractor error, finalize, failure and crash steps. Every step reads its own clock, so nothing
  is assumed about how time passes, and a lease may be taken over at any moment its expiry allows.
- The claim transaction is assumed atomic. This is an assumption about the database: the `SELECT` locks only the
  `conversations` row (src/saas_platform/modules/telecom_conversations/postgres_jobs.py:106).
- Rows are those of one tenant. Identifiers and lease tokens are fresh, taken from one counter. Hashes are injective. A
  message has one processing row, since `processing_version` is always 1.
- The answers of the extractor and of the scoring engine are arbitrary inputs of a finalize step. What the protocol relies on
  is the predicate `Protocol.Honest`, about resolved items, controls and signals alike, and `Composition.ExtractorIsHonest`
  proves it of every run of the extractor.
- A processing configuration allows at least one attempt, as src/saas_platform/config.py:56-62 demands.
- The value rows and signal rows of a lead are those of the commits its run made: `ProtocolHistory.CommitsOf` and `BatchesOf`
  read them off the applying steps, with the identifiers of the stored executions.
- Loops and row updates of the source are methods with loops and classes with fields; what they compute is stated by a
  function, and the properties are proved of that function.
- Confidences are integers in ten-thousandths. Regular expressions are flags on a message: whether its content matches the
  do-not-contact, correction, human or injection patterns.

## What the proofs found

- A commit is refused by the state machines exactly when the first applied extraction of an OPEN conversation asks a question:
  OPEN has no transition to WAITING_CUSTOMER. The error is a conflict the use case does not catch, so nothing is recorded, the
  lease is left to expire and the message is processed again.
- The evaluation of a commit is made from a profile reloaded before the lead row is updated, so it sees the opportunity of
  the commit before, and the first evaluation of a lead sees none. Missing information is never recorded.
- The "higher confidence" branch of the profile plan is unreachable while the lead version check holds, and reachable without it.
- A confirmed fact keeps its value but can lose its confirmed status to a more confident repetition.
- The newest mention of a field need not win reconciliation. Each printed value stands for itself by the latest of its surest
  mentions, and the newest value wins exactly when that mention outlasts those of the other values. A newest mention that no
  mention printing alike exceeds in confidence loses only to a value first seen later whose own mention has the same time.
- Under every valid policy with a do-not-contact rule on that signal alone, a do-not-contact message stops the score of its
  commit and of every later one, since its signal is certain, in no exclusive group, and so never switched off. A control suggested by the provider alone does so only when its confidence reaches
  the minimum of the policy.
- Persisting a stored grouped signal again would switch its own row off. No run does so, because every commit has a fresh
  execution and the signals of one commit have distinct codes.
- Without a fencing token the older queue still applies each effect at most once, because the receipt and the event status
  guard it. What it loses is the meaning of `available` and `dead`. A step reopens a message whose attempts are used up exactly
  when it is a transient failure under a ticket that still has attempts left, on a leased message that has none. The event of a
  dead message is processed exactly when the message holds a receipt, and a worker that claimed the message before its death
  can still process the event afterwards.

## Model

| member | source | states |
|---|---|---|
| `ProtocolFencing.OutcomesAreFenced` | src/saas_platform/modules/telecom_conversations/postgres.py:827-924 | In every run, every committed outcome (complete, blocked or failed) belongs to the claim that was then the most recent claim of its conversation, and no claim commits two outcomes |
| `ProtocolFencing.StaleWorkerAborts` | src/saas_platform/modules/telecom_conversations/application.py:584-596 | A worker whose conversation was claimed again commits nothing in prepare, finalize or failure recording, even while its own processing row still carries its token |
| `ProtocolFencing.LeasesPairedInEveryRun` | src/saas_platform/modules/telecom_conversations/postgres_jobs.py:115-150 | In every reachable state a leased conversation names a PROCESSING row with the same token and expiry, no two rows share a token, and a row has a token exactly while it is PROCESSING |
| `ProtocolFencing.RunsAreFenced` | src/saas_platform/modules/telecom_conversations/postgres_jobs.py:49-150 | The whole lease, claim and fencing invariant holds after any interleaving of ingest, claim, prepare, extractor error, finalize, failure and crash steps with arbitrary clocks |
| `ProtocolFencing.NextIsShaped` | src/saas_platform/modules/telecom_conversations/postgres.py:827-924 | Every step of the system idles, only adds rows, claims one row with its conversation, or commits as the owner of both leases; nothing else is possible |
| `ProtocolFencing.TerminalRowsStayFinal` | src/saas_platform/modules/telecom_conversations/postgres.py:837-845 | A processing row in a terminal status is exactly the same row after every continuation of the run |
| `ProtocolFencing.RetriesAreBounded` | src/saas_platform/modules/telecom_conversations/application.py:1395-1424 | In every run with any crashes and takeovers: a row in RETRYABLE_FAILURE has attempts below the maximum, and each row records at most max_attempts - 1 retryable failures |
| `ProtocolLeases.FinalizeReleases` | src/saas_platform/modules/telecom_conversations/postgres.py:892-924 | Whatever a finalize commits, the claim owned the row and the conversation, the row and its message carry the final status, only its own conversation is freed, and no reference changes |
| `ProtocolLeases.IngestOnlyAdds` | src/saas_platform/modules/telecom_conversations/application.py:105-180 | Ingestion leaves every stored contact, conversation, lead, message and row as it was and adds only unleased, unprocessed ones under new identifiers |
| `ProtocolLeases.IngestKeepsRefs` | src/saas_platform/modules/telecom_conversations/application.py:105-180 | Ingestion keeps every index entry and reference pointing to a stored row, and gives each conversation a lead of its own |
| `ProtocolEffects.RunsAreCoupled` | src/saas_platform/modules/telecom_conversations/application.py:711-783 | In every reachable state: WAITING_HUMAN iff an active handoff exists; automation off iff WAITING_HUMAN or DO_NOT_CONTACT, and then no question pending; WAITING_CUSTOMER implies a pending question; at most one active handoff and one pending question per conversation; a lead is in one of four states; no evaluation records missing information |
| `ProtocolEffects.OnlyTheFirstQuestionIsRefused` | src/saas_platform/modules/telecom_conversations/application.py:758-790 | In a reachable state the state machines refuse a commit if and only if the extraction passed every guard, the conversation is OPEN, it is not do-not-contact, needs no handoff and asks a question: OPEN has no transition to WAITING_CUSTOMER |
| `ProtocolEffects.LeadTransitionAllowed` | src/saas_platform/modules/telecom_conversations/application.py:859-881 | Over coupled states the lead transition a commit asks for is always allowed, targets only QUALIFYING, QUALIFIED or DO_NOT_CONTACT, and is DO_NOT_CONTACT exactly for a do-not-contact extraction |
| `ProtocolEffects.WorkerMoves` | src/saas_platform/modules/telecom_conversations/domain.py:528-617 | Among the states a worker meets and the targets it asks for, OPEN to WAITING_CUSTOMER is the only move the conversation machine refuses |
| `ProtocolEffects.NextEffects` | src/saas_platform/modules/telecom_conversations/application.py:572-842 | Every step either leaves leads, handoffs, questions, executions, evaluations and states alone, ingests, or applies one admitted extraction with allowed transitions |
| `ProtocolEffects.HandoffsLeft` | src/saas_platform/modules/telecom_conversations/application.py:883-948 | After a commit the conversation has an active handoff iff one is needed or was active and the contact did not ask for silence; other conversations keep theirs; at most one stays active |
| `ProtocolEffects.QuestionsLeft` | src/saas_platform/modules/telecom_conversations/application.py:950-994 | After a commit a silenced conversation has no pending question, one is asked exactly when not silenced and suggested, other conversations keep theirs, and at most one is pending |
| `ProtocolCounting.RunsAreCounted` | src/saas_platform/modules/telecom_conversations/postgres.py:316-354 | In every reachable state, lead by lead: version = 1 + executions = 1 + evaluations = 1 + applied outcomes in the log |
| `ProtocolCounting.RunsApplyOnce` | src/saas_platform/modules/telecom_conversations/application.py:622-660 | In every run each durable extraction key and each message is applied at most once, and executions and evaluations come in pairs whose row is terminal |
| `ProtocolCounting.IndexesNeverViolated` | src/saas_platform/modules/telecom_conversations/application.py:660-708 | In a reachable state no claim that owns its row meets the unique indexes of executions and evaluations, so finalize never ends in an integrity violation |
| `ProtocolCounting.RunsAreCovered` | src/saas_platform/modules/telecom_conversations/application.py:622-655 | In every run a row is completed exactly when it names an execution, and that execution was applied to the same conversation with the message among the selected ones, duplicates included |
| `ProtocolDoNotContact.SilenceIsFinal` | src/saas_platform/modules/telecom_conversations/application.py:598-620 | Once a contact is do-not-contact, in every continuation no handoff and no question of its conversations is created or reactivated, every evaluation recorded for it is a do-not-contact one, and its conversations move only to DO_NOT_CONTACT |
| `ProtocolDoNotContact.RunsStaySilent` | src/saas_platform/modules/telecom_conversations/application.py:734-756 | In every run a contact is do-not-contact iff the log holds such a commit for it, and every later commit of any of its conversations is do-not-contact and creates neither handoff nor question |
| `ProtocolDoNotContact.DoNotContactIsNeverParked` | src/saas_platform/modules/telecom_conversations/application.py:476-497 | In every run a message whose text matches a do-not-contact pattern never ends as BLOCKED_HANDOFF |
| `ProtocolProfile.ValueChangesOnlyByCorrection` | src/saas_platform/modules/telecom_conversations/application.py:594-675 | In every reachable state a step changes a current profile value iff it applies an extraction to that lead whose claimed message matches the correction pattern, whose winner was observed with another value, and the held value is neither confirmed nor closed to the AI |
| `ProtocolProfile.UncorrectedValuesStay` | src/saas_platform/modules/telecom_conversations/profile.py:165-235 | As long as no message of a lead's conversation matches the correction pattern, every value its profile ever held is still the current one after every continuation |
| `ProtocolProfile.RunsKnowTheirContexts` | src/saas_platform/modules/telecom_conversations/application.py:497-520 | In every run a worker's snapshot of the lead's present version holds the lead's present facts, so the version check admits only plans made against them |
| `ProtocolProfile.EvaluationLags` | src/saas_platform/modules/telecom_conversations/application.py:688-708 | A commit's evaluation records the opportunity the lead had before the commit and no missing information, while the lead gets the merged opportunity |
| `ProtocolProfile.OpportunitiesAreSticky` | src/saas_platform/modules/telecom_conversations/profile.py:237-254 | In every run a primary opportunity seen by an evaluation is never revised by later ones, and the first evaluation of a lead never knows its opportunity |
| `ProtocolHistory.LeadFactsAreDurable` | src/saas_platform/modules/telecom_conversations/postgres.py:1063-1160 | In every run the facts of a lead are the fold of the commits the run itself made to it (the resolved items, the correction flag and the stored execution identifier of each applying step), one per version after the first; persisting exactly these commits never aborts and leaves durable rows that represent exactly these facts |
| `ProtocolHistory.RunsRecordCommits` | src/saas_platform/modules/telecom_conversations/application.py:656-708 | In every run the value commits and signal commits of a lead stand side by side, one per version after the first, carry the identifiers of exactly the executions stored for the lead in order, and hold resolver output and accepted signals of distinct codes |
| `ProtocolHistory.LeadSignalsMeanLatest` | src/saas_platform/modules/telecom_conversations/postgres.py:1162-1212 | In every run of the protocol the signal rows of a lead are the signals of its commits in order, and a row is active iff accepted or confirmed and no later signal of the lead shares an exclusive group with it |
| `ProtocolSignals.SilenceUsableIffSaid` | src/saas_platform/modules/telecom_conversations/application.py:677-700 | In every run the engine may use the loaded do-not-contact signal of a lead iff some commit of the lead persisted one of at least the minimum confidence |
| `ProtocolSignals.SaidSilenceStopsEveryScore` | src/saas_platform/modules/telecom_conversations/application.py:677-708 | After a commit that persisted a do-not-contact signal of at least the policy's minimum confidence, and after every continuation, scoring the loaded signals of the lead stops automation without handoff under every valid policy with a do-not-contact rule on that signal alone |
| `ProtocolSignals.AskedSilenceStopsEveryScore` | src/saas_platform/modules/telecom_conversations/application.py:677-708 | The same after any commit with a selected message that matches a do-not-contact pattern, whatever the minimum confidence |
| `StateMachines.LeavingDoNotContactNeedsConsent` | src/saas_platform/modules/telecom_conversations/domain.py:588-616 | The machines leave do-not-contact only for a human with restored consent, to OPEN for the conversation and to IN_CONVERSATION for the lead; no modelled use case takes this step |
| `ProtocolExamples.FirstQuestionIsRefused` | src/saas_platform/modules/telecom_conversations/domain.py:528-617 | A concrete run in which the first message of a conversation, honestly extracted into a question, is refused and its worker stops with nothing recorded |
| `ProtocolExamples.StaleWorkerStillOwnsItsRow` | src/saas_platform/modules/telecom_conversations/postgres.py:908-924 | A concrete run in which a taken-over worker still finds its row PROCESSING under its own token, so that only the conversation lease fences it |
| `ProtocolLeases.IngestIsIdempotent` | src/saas_platform/modules/telecom_conversations/application.py:181-235 | After a message was ingested, its key answers every later ingestion without a change: a replay, or a conflict iff the content differs |
| `ProtocolFencing.CandidateIsUnique` | src/saas_platform/modules/telecom_conversations/postgres_jobs.py:108-113 | In every reachable state the claim order singles out at most one row; row identifiers are issued and distinct in every run |
| `ProtocolLeases.BackoffDoublesToTheCap` | src/saas_platform/modules/telecom_conversations/application.py:1417 | The delay before a retry doubles with every attempt up to 300 seconds and never shrinks |
| `ProtocolEffects.HandoffCreatedOnce` | src/saas_platform/modules/telecom_conversations/application.py:883-948 | A needed handoff is created only when none is active, and the created one ranks the customer's own request above a specialized one above a general one |
| `ProtocolEffects.QuestionFollowsProfile` | src/saas_platform/modules/telecom_conversations/application.py:950-994 | A changed profile withdraws the pending question and a suggested one is asked anew; an unchanged one keeps what is pending and adds nothing |
| `UnitOfWorks.UnitOfWork.IngestMessage` | src/saas_platform/modules/telecom_conversations/application.py:105-180 | The step-by-step ingestion, which inserts the contact before it meets a conversation of another contact and then rolls back, equals the atomic one: created rows, a replay, or a conflict that changes nothing |
| `UnitOfWorks.UnitOfWork.SelectCandidate` | src/saas_platform/modules/telecom_conversations/postgres_jobs.py:54-115 | The candidate is eligible, unlocked, and first by customer time, arrival and identifier; none is returned only when no row is claimable |
| `UnitOfWorks.UnitOfWork.ClaimNext` | src/saas_platform/modules/telecom_conversations/postgres_jobs.py:49-165 | A claim leases the first claimable row and its conversation under one fresh token and counts the attempt; without a candidate nothing changes |
| `UnitOfWorks.UnitOfWork.CompleteRow` | src/saas_platform/modules/telecom_conversations/postgres.py:827-857 | Completing succeeds iff the claim owns row and conversation, and then the state is the completed one |
| `UnitOfWorks.UnitOfWork.FailRow` | src/saas_platform/modules/telecom_conversations/postgres.py:858-891 | Failing succeeds iff the claim owns row and conversation, and then the state is the failed one |
| `UnitOfWorks.UnitOfWork.FinishMessageAndConversation` | src/saas_platform/modules/telecom_conversations/postgres.py:892-924 | The two updates match one row each iff the message is stored and the conversation is leased to this message and token |
| `UnitOfWorks.UnitOfWork.PrepareClaim` | src/saas_platform/modules/telecom_conversations/application.py:458-520 | The guards in order equal the atomic prepare: a snapshot without any change, a blocked completion, or an error with every row rolled back |
| `UnitOfWorks.UnitOfWork.FinalizeClaim` | src/saas_platform/modules/telecom_conversations/application.py:572-842 | The step-by-step commit with rollback equals the atomic one: committed rows, status and effects, or an error that leaves the state untouched |
| `UnitOfWorks.UnitOfWork.CommitExtraction` | src/saas_platform/modules/telecom_conversations/application.py:656-842 | The modelled writes of a commit, in the order of the source, end in the planned state or are rolled back by a refused transition or a lost lease |
| `UnitOfWorks.UnitOfWork.PlanStates` | src/saas_platform/modules/telecom_conversations/application.py:711-783 | Handoff, question and silencing done one after the other leave the handoffs, questions and contact the plan says |
| `UnitOfWorks.UnitOfWork.MoveStates` | src/saas_platform/modules/telecom_conversations/application.py:758-798 | Conversation and lead move iff both machines allow it |
| `UnitOfWorks.UnitOfWork.RecordTheFailure` | src/saas_platform/modules/telecom_conversations/application.py:1395-1450 | Recording a failure equals the atomic step, and changes nothing when the lease was lost |
| `UnitOfWorks.UnitOfWork.Execute` | src/saas_platform/modules/telecom_conversations/application.py:409-456 | Working a claim from start to end leaves the rows the three steps of the system leave, and returns what the caller sees: the status reached, a conflict, or the error that escapes |
| `UnitOfWorks.OnlyUncaughtErrorsEscape` | src/saas_platform/modules/telecom_conversations/application.py:440-456 | While the claim owns its leases, an error escapes to the caller iff it is a conflict of keys, a refused transition, a missing row or a broken constraint, and then nothing was recorded |
| `Profile.ResolveFields` | src/saas_platform/modules/telecom_extraction/processing.py:349-388 | The two loops resolve every mention by its own evidence and by how often its field and printed value occur |
| `Profile.ResolveOne` | src/saas_platform/modules/telecom_extraction/processing.py:360-426 | Resolution never marks an item contradicted, accepts automatically only an observed value of enough confidence, and caps inferred, unknown and unverified ones |
| `Profile.ContradictedIffDisagreement` | src/saas_platform/modules/telecom_extraction/processing.py:440-461 | The reconciled item of a field is one of its candidates, and it is contradicted, with one contradiction, iff two candidates print differently or the profile holds an unequal value |
| `Profile.OneOutputPerField` | src/saas_platform/modules/telecom_extraction/processing.py:434-461 | Reconciliation leaves exactly one item per mentioned field, contradicted exactly when its field disagrees |
| `ProfileWinner.RepresentativesAreSurest` | src/saas_platform/modules/telecom_extraction/processing.py:440-447 | The representatives of a field are exactly the surest latest mentions of their printed values, pairwise printing apart, and every candidate is represented by one of its print that is at least as confident |
| `Profile.GroupByField` | src/saas_platform/modules/telecom_extraction/processing.py:434-439 | The grouping dictionary holds the candidates of each field in order, under the fields in first-seen order |
| `Profile.Reconcile` | src/saas_platform/modules/telecom_extraction/processing.py:429-461 | The reconciliation loop equals the declarative outputs and contradictions |
| `Profile.CandidatesAreDistinct` | src/saas_platform/modules/telecom_conversations/profile.py:137-145 | Accepted and contradicted candidates of a plan never share a field |
| `Profile.Plan` | src/saas_platform/modules/telecom_conversations/profile.py:88-135 | The planning loop decides every candidate against the profile before the plan and applies exactly the decisions that make current |
| `ProfileTheorems.ValueChangesIffCorrected` | src/saas_platform/modules/telecom_conversations/profile.py:165-235 | Over the whole pipeline a current value changes iff an unconfirmed value is corrected with an observed one, and then the new value is the winner's, accepted |
| `ProfileTheorems.FieldAppearsIffAccepted` | src/saas_platform/modules/telecom_conversations/profile.py:165-186 | A field enters the profile iff it is open to the AI and its winner is accepted, and then its mentions do not disagree |
| `ProfileTheorems.HigherConfidenceNeverFires` | src/saas_platform/modules/telecom_conversations/profile.py:219-229 | No decision of the pipeline ever takes the higher-confidence branch |
| `ProfileTheorems.StaleProfileOverwrites` | src/saas_platform/modules/telecom_conversations/profile.py:219-229 | Against a stale profile that branch does overwrite a value without a correction: the lead version check is what excludes it |
| `ProfileTheorems.ConfirmedKeepsValueAndLosesStatusIff` | src/saas_platform/modules/telecom_conversations/profile.py:184-218 | A confirmed value never changes, and its confirmed status is lost iff a more confident mention of equal value from another message wins |
| `ProfileTheorems.ConfirmedStatusCanBeLost` | src/saas_platform/modules/telecom_conversations/profile.py:187-197 | A concrete input on which a repetition costs a confirmed fact its status |
| `ProfileWinner.WinnerIs` | src/saas_platform/modules/telecom_extraction/processing.py:440-461 | Reconciliation keeps the mention that is the surest latest of its printed value and outlasts that of every other value: later, or as late and first seen after it |
| `ProfileWinner.ValueWinsIff` | src/saas_platform/modules/telecom_extraction/processing.py:440-461 | A printed value wins iff its surest latest mention outlasts those of all others |
| `ProfileWinner.NewestValueWinsIff` | src/saas_platform/modules/telecom_extraction/processing.py:440-461 | The newest printed value wins iff the latest among its surest mentions is not earlier than the latest among the surest mentions of every other value, ties going to the value first seen later |
| `ProfileWinner.SurestNewestWinsIff` | src/saas_platform/modules/telecom_extraction/processing.py:440-461 | A newest mention at least as confident as all that print like it wins iff no value first seen after its own has its surest latest mention at the same instant |
| `ProfileWinner.SurestNewestWins` | src/saas_platform/modules/telecom_extraction/processing.py:440-461 | A newest mention at least as confident as all that print like it, and later than every other value, always wins |
| `ProfileWinner.NewestMentionCanLose` | src/saas_platform/modules/telecom_extraction/processing.py:440-447 | Three concrete mentions, resolved and reconciled, of which the newest loses to an older one of another value |
| `ProfileWinner.SurestNewestCanLoseATie` | src/saas_platform/modules/telecom_extraction/processing.py:440-447 | Three concrete mentions of which the newest, though a surest one of its value, loses to another value of the same instant |
| `ProfileTheorems.PrimaryIsSticky` | src/saas_platform/modules/telecom_conversations/profile.py:237-254 | Merging keeps an opportunity valid, never replaces an identified primary one and forgets no identified one |
| `ProfileHistory.HistoryRepresentsProfile` | src/saas_platform/modules/telecom_conversations/postgres.py:1063-1160 | Over any run of commits none aborts, the current rows are exactly the in-memory profile with at most one per field, and every support count is the length of its trailing run |
| `ProfileHistory.ApplyRefinesPlan` | src/saas_platform/modules/telecom_conversations/postgres.py:1063-1160 | One commit takes rows that represent a profile to rows that represent the planned one, rewrites no stored value, and adds exactly the planned conflicts |
| `ProfileHistory.ApplyOneRefinesPlan` | src/saas_platform/modules/telecom_conversations/postgres.py:1082-1150 | One decision keeps the rows well formed and in step with the in-memory profile, adding at most one row |
| `ProfileHistory.AtMostOneCurrentRow` | src/saas_platform/modules/telecom_conversations/postgres.py:1088-1110 | Two current rows never share a field |
| `ProfileHistory.ChangedFieldsTell` | src/saas_platform/modules/telecom_conversations/profile.py:68-71 | The profile counts as changed iff some decision makes its fact current |
| `ProfileRepositories.ProfileRepository.ApplyDecision` | src/saas_platform/modules/telecom_conversations/postgres.py:1082-1150 | The row updates of one decision equal its specification, and an abort leaves the rows as they were |
| `ProfileRepositories.ProfileRepository.Apply` | src/saas_platform/modules/telecom_conversations/postgres.py:1063-1160 | The persistence loop equals the specification of the whole plan, reports the changed fields and added conflicts, and an abort changes nothing |
| `ProfileRepositories.ProfileRepository.Commit` | src/saas_platform/modules/telecom_conversations/application.py:668-683 | Reconcile, plan and apply against the stored profile never abort and leave rows that represent the pipeline's profile |
| `ProfileRepositories.ProfileRepository.Load` | src/saas_platform/modules/telecom_conversations/postgres.py:998-1062 | Loading the current rows gives back the profile they represent |
| `ProfileRepositories.ProfileRepository.PersistSignals` | src/saas_platform/modules/telecom_conversations/postgres.py:1162-1212 | The nested loops over signals and groups equal the specification |
| `SignalHistory.RunsMeanLatest` | src/saas_platform/modules/telecom_conversations/postgres.py:1162-1212 | Over every run of commits with fresh executions and distinct codes, the rows are its signals in order, and a row is active iff it was accepted or confirmed and no later signal of the run shares an exclusive group with it |
| `SignalHistory.RunsHaveOneActivePerGroup` | src/saas_platform/modules/telecom_conversations/postgres.py:1162-1212 | Over every such run no exclusive group has two active rows, although RESEARCH_ONLY belongs to two groups |
| `SignalHistory.LoadedIsStrongest` | src/saas_platform/modules/telecom_conversations/postgres.py:1213-1245 | Loading answers exactly the codes with an active row, each with an active signal that no active one of its code outranks by confidence and recency |
| `SignalHistory.UngroupedIsLoadedIffSaid` | src/saas_platform/modules/telecom_conversations/postgres.py:1213-1245 | Over every such run a code outside every group is loaded with at least a given confidence iff some commit said it with at least that confidence |
| `ProfileRepositories.ProfileRepository.LoadActiveSignals` | src/saas_platform/modules/telecom_conversations/postgres.py:1213-1245 | The loading loops over the sorted active rows give the specification |
| `SignalHistory.PersistAllKeepsMeaning` | src/saas_platform/modules/telecom_conversations/postgres.py:1162-1212 | The step behind it: one commit keeps the declarative meaning of the rows, and no row is lost or reordered |
| `SignalHistory.OneActiveRowPerGroup` | src/saas_platform/modules/telecom_conversations/postgres.py:946-984 | Rows of the declarative meaning never have two active ones in a group |
| `SignalHistory.UngroupedSignalStaysActive` | src/saas_platform/modules/telecom_conversations/postgres.py:1162-1212 | A signal outside every group, such as do-not-contact, stays active through every later commit |
| `SignalHistory.ReplaySwitchesOff` | src/saas_platform/modules/telecom_conversations/postgres.py:1168-1212 | Persisting a stored grouped signal again under its own execution switches its row off and inserts nothing; fresh executions and distinct codes keep this out of every run |
| `Outbox.RunsKeepInvariant` | src/saas_platform/modules/telecom_conversations/postgres_jobs.py:229-371 | In every run with crashes, expiries and late publishers: tokens mark exactly the publishing events; a retrying event has attempts left and was retried at most max_attempts - 1 times; a published event reached the sink; no event reached the sink more often than it was claimed |
| `Outbox.LatePublisherChangesNothing` | src/saas_platform/modules/telecom_conversations/postgres_jobs.py:312-371 | A publisher whose event was claimed again changes no event, whatever it does |
| `Outbox.PublishedAndDeadAreFinal` | src/saas_platform/modules/telecom_conversations/postgres_jobs.py:250-262 | A published or dead event is exactly the same event after every continuation |
| `Outbox.LaterTicketsHaveMoreAttempts` | src/saas_platform/modules/telecom_conversations/postgres_jobs.py:273-290 | In every run the later of two claims of an event carries the larger attempt count |
| `OutboxPublishers.SelectedIsTheFirstDue` | src/saas_platform/modules/telecom_conversations/postgres_jobs.py:252-272 | A batch holds due events, each once, earliest first, no more than the limit, and leaves out a due event only when full and none taken comes later |
| `OutboxPublishers.OutboxPublisher.ClaimBatch` | src/saas_platform/modules/telecom_conversations/postgres_jobs.py:248-310 | The claim loop leases exactly the selected events, each under its own fresh token |
| `OutboxPublishers.OutboxPublisher.Complete` | src/saas_platform/modules/telecom_conversations/postgres_jobs.py:312-348 | Completing succeeds iff the ticket owns its event, publishes it, and leaves the ticket owning nothing, so that any second settling with it fails and changes nothing |
| `OutboxPublishers.OutboxPublisher.Fail` | src/saas_platform/modules/telecom_conversations/postgres_jobs.py:350-393 | Failing succeeds iff the ticket owns its event, and leaves the ticket owning nothing, so that any second settling with it fails and changes nothing |
| `OutboxPublishers.OutboxPublisher.PublishTickets` | src/saas_platform/modules/telecom_conversations/postgres_jobs.py:229-246 | Working tickets in turn leaves the state of working each alone, delivers the accepted events in order, and counts each ticket once |
| `OutboxPublishers.OutboxPublisher.PublishBatch` | src/saas_platform/modules/telecom_conversations/postgres_jobs.py:229-246 | An undisturbed batch works every selected event once from where it stood, leaves the others, and its counters sum to the batch with published equal to the deliveries |
| `OutboxPublishers.WorkAllSettlesEach` | src/saas_platform/modules/telecom_conversations/postgres_jobs.py:233-245 | Distinct tickets settle each its own event, independently of the others' order |
| `Synthetic.RunsKeepInvariant` | src/saas_platform/infrastructure/postgres_queue.py:63-234 | For every interleaving of expired leases and stale complete and fail calls: one event and one outbox item per key, at most one message per item, version 2 and one audit iff processed, receipts only for processed events, every processed event with a receipt, completed messages only of processed events |
| `Synthetic.NothingIsRefused` | src/saas_platform/modules/synthetic_events/postgres.py:137-219 | No worker of any run meets a permanent error of processing: its event exists, its payload fits and its receipt never conflicts |
| `Synthetic.HandleApplies` | src/saas_platform/modules/synthetic_events/postgres.py:137-219 | Handling a queued message leaves its event processed and applies the effect iff it was not |
| `Synthetic.AcceptIsIdempotent` | src/saas_platform/modules/synthetic_events/postgres.py:38-119 | Accepting again under a key changes nothing and answers the one event of that key, or a conflict iff the payload differs |
| `Synthetic.CompletedAndDeadAreFinal` | src/saas_platform/infrastructure/postgres_queue.py:194-234 | A completed or dead message is exactly the same message after every continuation |
| `SyntheticTheorems.ExhaustsIffStaleFailure` | src/saas_platform/infrastructure/postgres_queue.py:216-234 | A step leaves a stored message available with its attempts used up iff it is a transient failure of a worker on the leased message, with attempts left on the worker's ticket and none on the message |
| `SyntheticTheorems.AttemptsLeftUntilStaleFailure` | src/saas_platform/infrastructure/postgres_queue.py:216-234 | A step breaks "an available message has attempts left" iff it is such a stale failure |
| `SyntheticTheorems.RunsWithoutStaleFailure` | src/saas_platform/infrastructure/postgres_queue.py:152-234 | In every run without a stale failure an available message has attempts left |
| `SyntheticTheorems.FailExhaustsIff` | src/saas_platform/infrastructure/postgres_queue.py:216-234 | Failing a leased message leaves it available with its attempts used up iff the failure is transient and the maximum lies above the ticket's attempts and not above the message's |
| `SyntheticTheorems.RunsCountTickets` | src/saas_platform/infrastructure/postgres_queue.py:171-192 | In every run a ticket counts no more attempts than its message |
| `Synthetic.StaleFailureReopens` | src/saas_platform/infrastructure/postgres_queue.py:216-234 | A concrete run in which a stale failure makes a message available although its attempts are used up |
| `SyntheticTheorems.ProcessedIffReceipt` | src/saas_platform/modules/synthetic_events/postgres.py:137-219 | In every run the event of a message is processed iff the message holds a receipt, so the event of a dead message is unprocessed iff it holds none |
| `SyntheticTheorems.BuriesProcessedIffReceipt` | src/saas_platform/infrastructure/postgres_queue.py:216-234 | In every run a step buries a message of a processed event iff it is a final failure on the leased message and the message held a receipt before |
| `SyntheticTheorems.DeadMessageProcessedIff` | src/saas_platform/modules/synthetic_events/postgres.py:137-219 | In every run the event of a dead message becomes processed iff a worker that claimed the message before its death handles it, the message holding no receipt |
| `SyntheticTheorems.DeadThenProcessed` | src/saas_platform/modules/synthetic_events/postgres.py:137-219 | A concrete run in which the event of a dead message is processed after the death |
| `Synthetic.DeadMessageOfProcessedEvent` | src/saas_platform/infrastructure/postgres_queue.py:216-234 | A concrete run in which a message dies although its event was processed |
| `SyntheticPipelines.SelectedItemsAreFirstPending` | src/saas_platform/infrastructure/postgres_queue.py:66-79 | A dispatch takes pending items, earliest first, no more than the limit, and leaves one out only when full |
| `SyntheticPipelines.DispatchAllPublishes` | src/saas_platform/infrastructure/postgres_queue.py:81-118 | A dispatched batch publishes exactly its items and leaves the others |
| `SyntheticPipelines.Pipeline.AcceptEvent` | src/saas_platform/modules/synthetic_events/postgres.py:38-119 | Accepting answers an event stored under this key with this payload, or a conflict, and keeps the invariant, the queued envelopes and the processed events |
| `SyntheticPipelines.Pipeline.DispatchBatch` | src/saas_platform/infrastructure/postgres_queue.py:63-136 | The dispatch loop equals dispatching its items one after the other |
| `SyntheticPipelines.Pipeline.ClaimMessage` | src/saas_platform/infrastructure/postgres_queue.py:152-192 | The claimed message is claimable and first by availability and identifier; none is returned only when nothing is claimable |
| `SyntheticPipelines.Pipeline.ProcessMessage` | src/saas_platform/modules/synthetic_events/postgres.py:137-219 | The imperative processing equals its specification, and a permanent error changes nothing |
| `SyntheticPipelines.Pipeline.CompleteMessage` | src/saas_platform/infrastructure/postgres_queue.py:194-214 | Completing answers, whoever leased the message, whether it is completed afterwards, and keeps the invariant when the message holds a receipt |
| `SyntheticPipelines.Pipeline.FailMessage` | src/saas_platform/infrastructure/postgres_queue.py:216-234 | Failing leaves the message not leased, whoever leased it, and keeps the invariant |
| `SyntheticPipelines.Pipeline.WorkMessage` | src/saas_platform/infrastructure/postgres_queue.py:276-307 | Without a fault the message ends completed and its event processed, with one more audit iff the effect was new; with a fault it is no longer leased; the invariant is kept |
| `SyntheticPipelines.Pipeline.RunCycle` | src/saas_platform/infrastructure/postgres_queue.py:260-309 | An undisturbed cycle keeps the invariant, adds exactly as many audits as it counts effects, and stops short of its size only when nothing is claimable |
| `ScoringTheorems.ScoresAreMonotone` | src/saas_platform/modules/lead_qualification/scoring.py:179-216 | For every valid policy without excluded signals, enlarging the usable signals lowers no raw or capped dimension score and not the subtotal |
| `ScoringTheorems.ScoreAndBandAreMonotone` | src/saas_platform/modules/lead_qualification/scoring.py:61-71 | If moreover no new penalty matches, neither the score nor the lower bound of the classification band falls |
| `ScoringTheorems.GroupAddsItsMaximum` | src/saas_platform/modules/lead_qualification/scoring.py:188-197 | Each exclusive group adds exactly the maximum of its matching points to its dimension, and nothing when none matches |
| `ScoringTheorems.SignalsAreASet` | src/saas_platform/modules/lead_qualification/scoring.py:153-166 | Permuting or repeating the signals of a request changes no evaluation |
| `ScoringTheorems.RuleOrderIsIrrelevant` | src/saas_platform/modules/lead_qualification/scoring.py:43-138 | Permuting criteria, penalties, decisions or bands of a valid policy changes no evaluation |
| `ScoringTheorems.FingerprintIffPermuted` | src/saas_platform/modules/lead_qualification/domain.py:496-574 | Two valid policies have the same canonical data iff they hold the same header, dimensions, rules and bands in some order |
| `ScoringTheorems.FingerprintDeterminesEvaluation` | src/saas_platform/modules/lead_qualification/domain.py:496-574 | Policies of one fingerprint evaluate every set of signals alike, up to the order in which dimension scores are listed |
| `ScoringTheorems.EveryEvaluationSucceeds` | src/saas_platform/modules/lead_qualification/domain.py:462-494 | A valid policy evaluates every set of signals: 0 <= subtotal <= 100, raw points sum to the contributions, and classification finds a band |
| `ScoringTheorems.NoContributionIsLost` | src/saas_platform/modules/lead_qualification/scoring.py:200-216 | The raw points of the dimensions sum to the points of the contributions |
| `ScoringTheorems.EveryScoreHasOneBand` | src/saas_platform/modules/lead_qualification/domain.py:485-494 | Every integer from 0 to 100 lies in exactly one band of a valid policy, and classification answers that band |
| `ScoringTheorems.BandsAscend` | src/saas_platform/modules/lead_qualification/scoring.py:229-237 | A higher score is never classified in a lower band |
| `ScoringTheorems.DoNotContactStops` | src/saas_platform/modules/lead_qualification/scoring.py:239-294 | A rule with the do-not-contact effect on that signal alone yields STOP_AUTOMATION and no handoff, whatever else policy and signals say |
| `ScoringTheorems.ScoreIsFlooredSum` | src/saas_platform/modules/lead_qualification/scoring.py:61-70 | Penalties only lower the score, which is the sum of subtotal and adjustments or zero: the upper bound never takes effect |
| `ScoringTheorems.HighestPriorityDecides` | src/saas_platform/modules/lead_qualification/scoring.py:239-264 | Without a do-not-contact effect, a matching decision of highest priority, the smallest code among equals, determines the action |
| `ScoringTheorems.HandoffIsExplained` | src/saas_platform/modules/lead_qualification/scoring.py:266-294 | A handoff is advised exactly when it carries a reason, and a specialized one is always an advised one |
| `ScoringEngine.UsableSignals` | src/saas_platform/modules/lead_qualification/scoring.py:153-176 | The loop keeps one signal per usable code, and no usable signal of the code outranks it |
| `ScoringEngine.SelectCriteria` | src/saas_platform/modules/lead_qualification/scoring.py:179-197 | Picking ungrouped matches and the head of each sorted group gives the sorted declarative selection |
| `ScoringEngine.GroupCriteria` | src/saas_platform/modules/lead_qualification/scoring.py:188-193 | The grouping dictionary partitions the grouped matches by dimension and group |
| `ScoringEngine.ScoreDimensions` | src/saas_platform/modules/lead_qualification/scoring.py:200-216 | The dictionary of raw points gives the capped dimension scores |
| `ScoringEngine.CollectSignals` | src/saas_platform/modules/lead_qualification/scoring.py:309-321 | The loop collects exactly the signals required by contributions, penalties and decisions |
| `ScoringEngine.EvaluateLead` | src/saas_platform/modules/lead_qualification/scoring.py:43-138 | The engine with its loops equals the declarative evaluation, with each policy error |
| `Context.SelectionIsGreedy` | src/saas_platform/modules/telecom_extraction/context.py:80-103 | The selection is a non-empty ascending subsequence of the eligible messages within the character limit, ends with the newest one and truncates no other |
| `Context.LeftOutIffItDidNotFit` | src/saas_platform/modules/telecom_extraction/context.py:88-101 | A message but the newest is left out iff the budget its newer ones leave is spent or too small for it |
| `Context.NewestMessageText` | src/saas_platform/modules/telecom_extraction/context.py:93-97 | The newest message enters whole, or as exactly its last characters up to the limit |
| `Context.EligibleEndsWithNewest` | src/saas_platform/modules/telecom_extraction/context.py:80-86 | The eligible messages are in time order, end with the newest of all, and are all recent as soon as some message is |
| `Context.SelectMessages` | src/saas_platform/modules/telecom_extraction/context.py:88-103 | The reversed loop with its break and continue equals the greedy selection |
| `Context.FindControls` | src/saas_platform/modules/telecom_extraction/context.py:177-207 | A control is found iff some selected message shows it, with certainty and from the latest message that does |
| `Context.PrepareContext` | src/saas_platform/modules/telecom_extraction/context.py:70-103 | The prepared context holds the selection within both limits and the controls of the selected messages |
| `Extraction.NormalizePayload` | src/saas_platform/modules/telecom_extraction/processing.py:115-251 | The normalization loops equal their specification, and any unknown reference, invalid value or schema violation is an invalid response |
| `Extraction.AttemptExtraction` | src/saas_platform/modules/telecom_extraction/application.py:116-196 | The retry loop over an arbitrary provider equals its recursive specification, with the repair flag after an invalid response |
| `Extraction.RetriesAreBounded` | src/saas_platform/modules/telecom_extraction/application.py:132-180 | Extraction degrades only after a failure not worth retrying or max_retries + 1 attempts, and completes after at most max_retries failures, all worth retrying |
| `Extraction.DoNotContactSurvives` | src/saas_platform/modules/telecom_extraction/application.py:302-356 | For every provider, a returned result carries the control found in the messages, no question, no handoff, and the do-not-contact signal with full confidence |
| `Extraction.AcceptedControlsAre` | src/saas_platform/modules/telecom_extraction/processing.py:657-671 | A control is accepted iff it was found deterministically or suggested confidently; nothing suggested replaces what was found, and the most confident suggestion is kept |
| `Extraction.QuestionIsRelevant` | src/saas_platform/modules/telecom_extraction/processing.py:729-780 | A suggested question is about a contradicted or missing field not asked recently, a contradicted one as long as there is one, and never put to a silenced or handed-over customer |
| `Extraction.OnlyControlsSilence` | src/saas_platform/modules/telecom_extraction/processing.py:942-964 | The do-not-contact signal is emitted iff the control was accepted, whatever signals the provider sent |
| `Extraction.NoForbiddenSignals` | src/saas_platform/modules/telecom_extraction/processing.py:88-103 | No result of any provider carries a signal the provider is not trusted with |
| `Extraction.CollectCandidates` | src/saas_platform/modules/telecom_extraction/processing.py:942-1025 | The dictionary of candidate signals, overwritten and defaulted in order, equals its specification |
| `Extraction.ResultsComeFromResolver` | src/saas_platform/modules/telecom_extraction/application.py:211-226 | Nothing a completed result resolved is marked contradicted before reconciliation |
| `Composition.ExtractorIsHonest` | src/saas_platform/modules/telecom_extraction/application.py:92-114 | For every provider the extractor's result meets the assumption the protocol's commits are proved under: resolver output; the do-not-contact control whenever a selected message matches the pattern; accepted signals of distinct codes that name do-not-contact iff the control does, and with certainty when a message asked |
| `Composition.ExtractConversation` | src/saas_platform/modules/telecom_extraction/application.py:92-196 | Preparing the context under the prepared claim and attempting returns an honest extraction of the selected messages; it asks nothing while a handoff is confirmed, and a degraded one neither resolves a field nor asks |
| `Composition.ListSignals` | src/saas_platform/modules/telecom_extraction/processing.py:942-1025 | The loop lists each candidate signal once, as an accepted signal |
| `Composition.DoNotContactStopsTheScore` | src/saas_platform/modules/telecom_extraction/application.py:116-196 | If a selected message matches a do-not-contact pattern, scoring the signals of the result itself, of any provider and under any valid policy with a do-not-contact rule on that signal alone, stops automation without handoff; the commit scores the persisted and reloaded signals, which is ProtocolSignals.AskedSilenceStopsEveryScore |
| `Sorting.SortIgnoresOrder` | src/saas_platform/modules/lead_qualification/scoring.py:197 | Sorting without ties forgets the order of its input, the step behind every order-independence of the engine |

## Left out

- Version columns other than the lead's, contact details beyond do-not-contact, audit and outbox rows of a commit, and summaries: written but never read by the modelled decisions.
- HTTP API, settings, metrics, logging, the OpenAI adapter, prompts, JSON, SHA-256, redaction and the regular expressions themselves: plumbing or foreign calls.
- The order of codes among the loaded signals, and eligibility: scoring is proved to depend on the set of signals only, and eligibility is copied through.
- The default scoring policy, the table of required fields and the question texts: everything is proved over arbitrary ones.
- `HandoffStateMachine`, reopening by a human and other manual steps: no modelled use case performs them, and runs contain none.
- Tenants: each run is that of one tenant, as the repositories filter every query by it.
- Rounding of confidences to their database column, and the overall confidence of an extraction.
- Scoring explanations and summary strings; sorted tuples of a set are given as the set.
- The counters of the conversation worker's cycle.
- Protocol.Honest: assumed of a finalize step's extraction, and proved of the modelled extractor in Composition; an extractor that leaves its own class of errors ends the worker's step without a finalize.
- UnitOfWorks.UnitOfWork.CommitExtraction: profile value rows, signal rows, audit and outbox rows are not among its writes; value and signal rows are modelled in ProfileRepository and tied to the run in ProtocolHistory.
- SignalHistory.ReplaySwitchesOff: speaks of a replay no run performs, since executions are fresh and codes distinct.
- StateMachines.LeavingDoNotContactNeedsConsent: speaks of a step no modelled use case takes.
- UnitOfWorks.UnitOfWork.Execute: states a claim worked without another transaction in between; interleavings are the subject of the protocol modules.
- OutboxPublishers.OutboxPublisher.PublishBatch: states an undisturbed batch with one clock for the claim and one for failures; disturbed batches are runs of module Outbox.
- SyntheticPipelines.Pipeline.RunCycle: states an undisturbed cycle in which faults strike before completion; disturbed ones are runs of module Synthetic.
- ScoringTheorems.RuleOrderIsIrrelevant: does not permute dimensions, because the result lists dimension scores in the policy's order; FingerprintDeterminesEvaluation covers that case.
