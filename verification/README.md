# Alert quality analysis: a verified model

The repository reads a week of alerts of one team, judges them by deterministic rules, lets a
language model assess the alerts that no rule flagged, stores the result and lets an operator
publish it as the team's weekly review. This project models its three hardest parts and proves what
they promise.

**The analysis of a week, in two forms.** The batch form keeps every row, evaluates all of them and
attaches late findings row by row. The streaming form sees each row once, in time order, and keeps
counters, representatives, a deque of clear cycles and *signatures* whose meaning is settled only at
the end. Both are imperative here, as they are in the repository; both are proved against one
declarative specification (`Analysis`, `Metrics`, `Suppression`, `Firing`), that specification is
proved to admit one output only, and so both forms report the same (`Parity.BothForms`).

**The assessment protocol.** Alerts are grouped, split into balanced batches, losslessly factored and
sent. Each batch is tried at most three times, with an attempt row committed before each call.
`Protocol` is a step relation over journal, process and model, with crashes anywhere; `Attempts` is
the loop of the program, proved to be a run of those steps; `Assess` and `Coverage` say what all the
alerts end up with.

**The publication store.** `Repositories.Store` has the transactions that write runs, publications
and verdicts; `PublishedWeeks` and `History` prove what every sequence of them keeps.

Around these stand the encodings (`Hashing`, `Normalize`), the run window (`Window`) and the paging
loop (`Reader`). `dafny verify dfyconfig.toml` checks everything.

## How to read it

- An instant is an integer number of microseconds, a UTC date a day number. A window bucket's date is
  the day number of its start.
- `Env` holds what an analysis is parameterized by: the row rules R1-R4 and R7-R10 as functions that
  give at most one finding for a row, the team's panels with their leaf predicates, and SHA-256 as a
  function. None of them reads the document hash.
- Counts are sizes of index sets (`Where`) and of value sets (`Values`), so a specification says which
  rows and identities are counted rather than how.
- A class of the repository is a class with the same fields. Ghost fields hold the rows seen so far.
- Every lemma carries `{:induction false}`: its proof is its body, and nothing rests on automatic induction.
- A definition that program and specification share (a key order, a threshold, a table, an encoding) is stated a
  second time without it, over the rows, texts, instants or calls themselves: the files named `…Laws`, `RuleTables`,
  `HashingVectors` and the lemmas named `…Means`.
- A predicate written `forall x :: Look(x) && x == e ==> P(x)` says `P(e)`; the verifier opens it only
  where a proof names `Look(e)`.

## What is exact about the results

- `build_batches` keeps every alert exactly when the configured size is not negative, or there are no
  alerts (`Batching.KeepsEveryAlert`). A negative size loses them silently or divides by zero; the
  configuration loader admits 1 to 200 only, so this does not arise in a configured run.
- `outcomes` is keyed by application and key field without the schema. Every alert gets its own outcome
  exactly when no two different alerts share an identity (`Coverage.OwnOutcomeEach`).
- On a date, alerts add up to the rule-flagged identities and the four assessment states exactly when
  every identity of that date was flagged or has an outcome (`Quality.StatesAddUp`). The outcomes of a run
  have that property for every date (`RunOutcomes.UnassessedRunAddsUp`, `RunOutcomes.AssessedRunAddsUp`).
- Persisting a run leaves the rows of all other runs alone exactly when all the rows it brings are its
  own, as those the orchestrator builds are (`History.PersistReplacesOnlyItsOwn`).
- SHA-256 is a function throughout. It is taken to be injective only where two batch ids, or two
  transport ids, are told apart, and where one judge is said to know the answers of all batches.

## Model

| member | source | states |
|---|---|---|
| Hashing.PrefixFree | src/hashing.py:45-82 | no encoding is a prefix of another: two values whose encodings start the same text are the same value up to key order, 1 against 1.0 and list against tuple, and what follows is the same |
| Hashing.EncodingDecides | src/hashing.py:64-82 | the encoding is defined exactly on finite JSON values, and equal exactly for values that are the same up to those three things |
| Hashing.FieldOrderIrrelevant | src/hashing.py:76-80 | permuting a mapping's keys does not change the encoding |
| HashingVectors.ScalarVectors | tests/unit/test_hashing.py:16-24 | the reference encodings of null, true, false, 42, 1.5 and -0.0, with 42.0 like 42 and a sign before a negative number; numbers that are not finite have none |
| HashingVectors.TextVectors | src/hashing.py:73-74 | texts are headed by the length of their UTF-8 form: none, ASCII, and characters of two and three bytes |
| HashingVectors.WidthsOfUtf8 | src/hashing.py:73-74 | exactly the characters below U+0080, U+0800 and U+10000 take one, two and three bytes, all others four |
| HashingVectors.ArrayVectors | tests/unit/test_hashing.py:31-36 | the reference encodings of arrays: tag, number of items, items in order |
| HashingVectors.NestedVector | tests/unit/test_hashing.py:37-42 | the reference encoding of a nested mapping given out of order: its keys are sorted |
| Normalize.SplitUndoesIdentity | src/domain/normalize.py:69-90 | `split_identity` gives back application and key field for all strings, separators inside them included |
| Normalize.IdentityInjective | src/domain/normalize.py:69-80 | different pairs have different identities |
| Normalize.KeysAreWritten | src/domain/normalize.py:69-80 | identities and tuple keys are length, colon and text of each part with bars between, a missing part being empty text |
| Normalize.TupleKeyInjective | src/domain/metrics.py:34-36 | at one arity a tuple key determines its parts, up to None against empty |
| Normalize.SelectRepresentative | src/domain/normalize.py:187-205 | the loop picks the first of the latest rows with the least document hash; None for no rows, where the source raises |
| Normalize.RepresentativeIsLatest | src/domain/normalize.py:187-205 | the representative is a latest row with the least document hash among those, and the first such row |
| Text.LessMeans | src/domain/normalize.py:187-205 | texts are ordered by their first difference, a proper prefix first |
| StreamState.LazyHashing | src/run/streaming.py:143-161 | hashing only when instants tie picks the row that eager hashing picks |
| Window.BuildRunWindow | src/domain/window.py:75-106 | the loop builds one bucket for each UTC date from the first to the last instant of the window |
| Window.WindowIsTiled | src/domain/window.py:75-106 | the buckets are non-empty, follow each other without gap, one per UTC date of 24 hours, seven when the run is at midnight and eight otherwise |
| Window.CoversTheWeek | src/domain/window.py:75-106 | the buckets' lengths add up to 168 hours |
| Window.EveryInstantHasItsBucket | src/domain/window.py:54-66 | an instant of the 168 hours before the run lies in exactly one bucket, the one with its date |
| Firing.ComputeFiringFacts | src/rules/firing.py:67-124 | sorting and two passes compute the facts of the ordered events; None where the empty list raises |
| Firing.FactsIgnoreOrder | src/rules/firing.py:67-124 | the facts are the same for every permutation of the rows |
| Firing.FlapCountIsMaximum | src/rules/firing.py:79-87 | `max_clear_cycles_24h` is attained in some half-open 24 hours and exceeded in none |
| Firing.MaxCycles | src/rules/firing.py:79-87 | the two-pointer scan computes that maximum |
| Firing.LongestRunIsMaximum | src/rules/firing.py:89-101 | `max_episode_firing_rows` is attained by some stretch of events without a clear and exceeded by none |
| Firing.OpenRunIsSuffix | src/rules/firing.py:101-103 | the open episode is made of the firing events after the last clear |
| FiringLaws.CyclesMean | src/rules/firing.py:74-87 | however the rows are put in firing order, `max_clear_cycles_24h` is the most clears right after a firing row in any half-open 24 hours, said of the rows and their severity or status |
| FiringLaws.EpisodesMean | src/rules/firing.py:89-101 | ... `max_episode_firing_rows` is the most consecutive rows without a clear |
| FiringLaws.OpenMeans | src/rules/firing.py:89-103 | ... `open_since` is the time of the first row after the last clear, if any row follows it |
| FiringLaws.PatternMeans | src/rules/firing.py:101-124 | ... clear count, spans and rate are those of the rows, and the pattern is flapping from three cycles, else spamming from 24 events per 24 hours over six hours or more unless from Grafana, else stuck for a Grafana episode of 72 hours or more |
| FiringStream.FinishHolds | src/rules/firing_stream.py:52-101 | after the last flush the accumulator's fields are the facts of all rows seen |
| FiringStream.AddHolds | src/rules/firing_stream.py:35-71 | one more row in time order keeps the correspondence, ties and eviction included |
| FiringStream.FiringAccumulator.Add | src/rules/firing_stream.py:35-50 | a row earlier than the one before is refused and changes nothing; any other leads to the state after it |
| FiringStream.FiringAccumulator.Finish | src/rules/firing_stream.py:73-101 | the facts returned are those `firing_facts` computes from any permutation of the rows seen |
| Rules.EvaluateReports | src/rules/engine.py:108-150 | evaluating a rule list reports, for each rule, exactly its finding on the row |
| Suppression.EvaluateSuppression | src/suppression/evaluate.py:348-444 | the batch loops compute the rows excluded, and those hidden, by every panel, with the whole-schema guard |
| Suppression.SuppressionAccumulator.Add | src/suppression/stream.py:48-58 | the mask holds the suppression leaves that match the row, the flag whether every panel hides it |
| Suppression.SuppressionAccumulator.Finish | src/suppression/stream.py:60-91 | the active mask holds the leaves the guard lets through, given all rows |
| Suppression.SuppressionAccumulator.SuppressedByMask | src/suppression/stream.py:93-97 | the answer bound late from a mask is the one all rows give |
| Suppression.VisibilityMeans | src/suppression/evaluate.py:348-444 | a row is suppressed exactly when there are panels and each has a matching suppression leaf that matches at most half of all rows; unseen exactly when each has a matching identity leaf and the row is not suppressed |
| Metrics.ComputeDailyVolume | src/domain/metrics.py:91-147 | the batch loops on string keys compute, for each bucket, the numbers of rows, identities, scopes, nodes and scopes with a node; None where a date has no bucket |
| Metrics.VolumeMeans | src/domain/metrics.py:39-147 | each figure is the number of rows, identities, (application, component) pairs or (application, component, node) triples of the date, the named ones being those with a node name that is not blank |
| Metrics.ScopeKeysCountScopes | src/domain/metrics.py:34-36 | counting scope string keys counts scope tuples, on any rows |
| Metrics.NodeKeysCountNodes | src/domain/metrics.py:34-36 | counting node string keys counts node tuples, on any rows |
| StreamIdentities.StreamIdentity.MeetRow | src/run/streaming.py:143-161 | the representative is the one of the rows with this one, its hash filled in when needed |
| StreamIdentities.StreamIdentity.Record | src/run/streaming.py:100-110 | a finding's rule gets its first sample, or its count grows |
| StreamIdentities.StreamIdentity.Land | src/run/streaming.py:163-184 | day counts, rule counts, signatures and samples are those of the identity's rows with this one |
| StreamIdentities.StreamIdentity.Finish | src/run/streaming.py:191-260 | representative, facts, days, samples, rule ids and the unseen flag are what all the rows of the schema determine, R6 and R5 included |
| Finishing.FlaggedBySignature | src/run/streaming.py:221-240 | whether a row is flagged in the end can be read off its signature |
| Finishing.ChosenSignatures | src/run/streaming.py:221-240 | the counts of the signatures that say a thing of their rows add up to the rows of which it is true, and the least first ordinal is that of the first such row |
| Finishing.EvidenceIsExact | src/run/streaming.py:97-110 | samples sorted by first ordinal and then `_EVIDENCE_ORDER` are the first-occurrence-ordered evidence of scanning every row |
| Streaming.SchemaAccumulator.Add | src/run/streaming.py:133-184 | a row after `finish`, outside the window or out of order is refused and not taken in; any other is accounted for, never missing a scope |
| Streaming.SchemaAccumulator.Finish | src/run/streaming.py:186-260 | every identity is finished; a second call is refused and changes nothing |
| Streaming.SchemaAccumulator.DailyVolumes | src/run/streaming.py:262-288 | the figures of every bucket are the specification's |
| Streaming.SchemaAccumulator.DailyTotals | src/run/streaming.py:290-303 | flagged, suppressed and unseen rows and identities of each date are those with that property |
| Streaming.SchemaAccumulator.DailyVisibility | src/run/streaming.py:298-303 | suppressed or unseen rows of each date are those with that property |
| Streaming.SchemaAccumulator.DailyRules | src/run/streaming.py:305-317 | the listing has exactly one entry for each window date and rule that fired on it, with the number of rows that fire it and of their identities, by date and rule number |
| Streaming.SchemaAccumulator.ReportOn | src/run/orchestrator.py:445-533 | the finding row built from an identity is the one its rows determine |
| Engine.BatchFindings | src/rules/engine.py:108-189 | a row's findings before R5 are those of its row rules and of R6 |
| Batch.GroupByIdentity | src/domain/normalize.py:208-213 | each identity's rows, in order |
| Batch.EvaluateIdentity | src/rules/engine.py:136-189 | R6 is added to all rows of an identity that has it, and the identity's rule ids are those of its rows |
| Batch.Evaluation.AttachRowFindings | src/rules/engine.py:191-219 | findings are added to their rows, and where there are any the rule ids of all identities are computed again |
| EngineDaily.ComputeDailyRuleCounts | src/rules/engine.py:222-258 | the batch listing is that same table: one entry for each date and rule that fired, its rows and their identities counted, in order |
| RuleTables.ListingIsTable | src/run/streaming.py:305-317 | the totals listed date by date and rule by rule are the table: counts, presence and order of every entry |
| RuleTables.OneEntryEach | src/run/streaming.py:305-317 | on ascending dates the entries strictly ascend by date and rule number, so none is repeated |
| EngineDaily.ComputeDailyFlagged | src/rules/engine.py:261-283 | the batch flagged counts are rows and identities with a core finding |
| FindingRow.BuildFindingRow | src/run/orchestrator.py:445-533 | the batch scan over an identity's rows builds the report its rows determine |
| ReportLaws.CoreRuleIdsMean | src/run/orchestrator.py:445-533 | the core rule ids of a finding row are those of rules 1 to 7 that fire on some row of the identity, by number |
| ReportLaws.ReadinessRuleIdsMean | src/run/orchestrator.py:445-533 | its readiness rule ids are those of rules 8 to 10 that fire on the representative, by number |
| ReportLaws.RepresentativeMeans | src/run/orchestrator.py:445-533 | its representative is the first of the identity's latest rows with the least document hash, and all its rows are counted |
| ReportLaws.EvidencePlaces | src/run/streaming.py:30-32 | within a row evidence is listed R1 to R4, R7, R6, R5, R8 to R10 |
| ReportLaws.FiringMeans | src/rules/engine.py:108-219 | R5 fires exactly on suppressed rows, with the ids of all panels; a row rule fires with what it finds |
| ReportLaws.PatternMeans | src/rules/engine.py:152-189 | R6 fires exactly on identities with a pattern, judged from all their rows and their representative's provider |
| Analysis.ReportUnique | src/run/orchestrator.py:445-533 | an identity's rows determine its report, evidence order included |
| Parity.AnalysisUnique | src/run/streaming.py:133-317 | rows, window and parameters determine all the reported figures |
| Parity.AnalyzeStream | src/run/streaming.py:320-332 | the streaming form meets the specification on rows hashed lazily, its rule table included |
| Parity.AnalyzeBatch | src/rules/engine.py:108-283 | the batch form meets the same specification on rows hashed eagerly, its rule table included |
| Parity.BothForms | src/run/streaming.py:133-317 | both forms report the same finding rows, rule counts, flagged, suppressed and unseen figures and volumes, for every feed in time order inside the window |
| Parity.HashesMean | src/domain/normalize.py:183 | the rows both forms judge have the hash of their document |
| Quality.AllocateQuality | src/run/orchestrator.py:388-442 | each date's state figures count the rows and identities in that state, and the gap figure the v2 identities with a readiness gap |
| Quality.StatesAddUp | src/run/orchestrator.py:388-442 | the identities of a date are the rule-flagged, the four states and the undecided; the first five add up exactly when there are no undecided ones |
| Quality.RuleAndModelDisjoint | src/run/orchestrator.py:388-442 | rows flagged by rule and rows flagged by the model together are at most the alerts |
| Quality.SuppressedWithinFlagged | src/run/streaming.py:221-240 | suppressed rows are at most the flagged ones, and suppressed and unseen together at most the alerts |
| RunOutcomes.EligibleAlerts | src/run/orchestrator.py:153-159 | the alerts given to the model are exactly the representatives of the identities without core findings, one each |
| RunOutcomes.CandidateAlerts | src/run/orchestrator.py:153-159 | the list is exactly the eligible alerts of both schemas |
| RunOutcomes.EveryAlertIsMarked | src/llm/assess.py:403-420 | every alert, and nothing else, is marked unassessed for the given reason, without principle, confidence or justification |
| RunOutcomes.FiguresAreOutcomes | src/run/orchestrator.py:388-442 | the figures of a date count the rows and identities without core findings by the state of their outcome |
| RunOutcomes.GapsMean | src/run/orchestrator.py:388-442 | the gap figure of a date counts its v2 identities on whose representative a rule from 8 to 10 fires |
| RunOutcomes.UnassessedRunAddsUp | src/run/orchestrator.py:205-210 | without the model, on every date of both schemas the rule-flagged identities and the four states add up to the distinct alerts |
| RunOutcomes.AssessedRunAddsUp | src/run/orchestrator.py:153-253 | after a completed assessment they add up on every date exactly when the configured batch size is not negative or everything was reused |
| Grouping.GroupAlerts | src/llm/grouping.py:100-125 | one group for each key, keys and members sorted; the key is pinned by `Grouping.KeySaysGroup` |
| Grouping.KeySaysGroup | src/llm/grouping.py:96-125 | the key is ("alert_rule_url", the URL) for an alert with a URL that is not blank and ("application", its application) for any other, and nothing else |
| Grouping.AlikeMeansOneGroup | src/llm/grouping.py:100-125 | two alerts are of one group exactly when both have a non-blank rule URL and it is the same, or neither has one and the applications are |
| BatchLaws.GroupsAreRight | src/llm/grouping.py:100-125 | each group holds exactly the alerts of its URL or application, by application and key field; groups ascend by type and value |
| Grouping.BalancedPartitionSizes | src/llm/grouping.py:128-138 | the sizes for a positive maximum; none, or a division by zero, for the others |
| Grouping.SizesBalanced | src/llm/grouping.py:128-138 | sizes are positive, at most the maximum, do not increase and differ by at most one |
| Batching.BuildBatches | src/llm/grouping.py:141-179 | the loop computes all groups' batches, group after group; None where it divides by zero |
| BatchLaws.BatchesAreRight | src/llm/grouping.py:141-179 | said of the batches themselves: ids, numbering, sizes and order, each batch a run of one group's sorted alerts, up to 200 or the configured cap, as few as that allows |
| BatchLaws.AlikeShareAGroup | src/llm/grouping.py:100-179 | two alerts, in one batch or in two, have one rule URL (or neither has one and they have one application) exactly when their batches name one group |
| Batching.EveryAlertOnce | src/llm/grouping.py:141-179 | the batches' alerts are a permutation of the input |
| Batching.KeepsEveryAlert | src/llm/grouping.py:141-179 | that holds exactly when the configured size is not negative or there is nothing to batch |
| Batching.MinusOneLosesAll | src/llm/grouping.py:141-179 | at size -1 no batch is built, whatever the alerts |
| Batching.EveryBatchWellFormed | src/llm/grouping.py:141-179 | a batch is non-empty, at most the cap, and its ids are those of its alerts; all its alerts have its group's rule URL, or none has one and all have its application |
| Batching.GroupIsBalanced | src/llm/grouping.py:128-179 | a group of n alerts makes ceil(n / cap) batches, numbered in order, whose sizes differ by at most one |
| Batching.InputOrderIrrelevant | src/llm/grouping.py:100-179 | permuting alerts with distinct application and key field changes no batch, order or id |
| Batching.BatchIdsDistinct | src/llm/grouping.py:73-93 | no two batches of a run share an id |
| Batching.TransportIdDetermines | src/llm/grouping.py:57-70 | alerts with one transport id have the same schema, application and key field |
| Request.SharedFieldNames | src/llm/request.py:31-45 | a key is shared exactly when every document has it with one encoding; None only where an encoding raises |
| Request.BuildRequest | src/llm/request.py:48-75 | ids, group and versions are those given; the header has exactly the fields every document has with one encoding; entry i has alert i's id and schema and exactly the other fields of its document, sorted by key; rebuilding entry i gives alert i's document |
| Request.RebuiltById | src/llm/request.py:48-97 | the document rebuilt from the entry with an alert's id is that alert's |
| Request.FactoringIsLossless | src/llm/request.py:48-97 | for encodable documents the merged document has the original's encoding, so `assert_lossless` never raises |
| Request.KeySetKept | src/llm/request.py:78-80 | the merged document has exactly the original keys |
| Request.HeaderIsMaximal | src/llm/request.py:31-45 | the header has every key that can be shared, and no other |
| Request.RowsOmitTheHeader | src/llm/request.py:48-75 | a row has exactly the keys of its document that cannot be shared |
| Request.AssertLossless | src/llm/request.py:83-97 | passes exactly when every document is rebuilt with its encoding |
| Response.ValidateVerdict | src/llm/response.py:50-94 | accepts exactly the objects that say a verdict, and returns what they say |
| ResponseLaws.WrittenSays | src/llm/response.py:50-94 | an object with the five fields says a verdict exactly when the id is not empty, assessment and confidence are of the allowed words, the principle is NONE, OTHER or of the catalogue as the assessment demands, and the justification is not blank and has at most 1000 characters; it then says what is written |
| ResponseLaws.OtherKeysRefused | src/llm/response.py:54-56 | an object with any other key says nothing |
| Response.ValidateResponse | src/llm/response.py:97-147 | accepts exactly the responses with one verdict for each requested alert and no other, applicable where the alerts are given, and returns them in request order; alerts that do not match the ids are refused apart, after everything else was found in order |
| ResponseLaws.ResponseMeans | src/llm/response.py:97-162 | a response with these verdicts to a batch is an answer exactly when it is the batch asked about, every requested alert has one proper verdict and no other alert has any, and each applies to its alert; the verdicts returned are the written ones, in request order |
| ResponseLaws.ApplicableMeans | src/llm/response.py:150-162 | P7 to P9 and R8 to R10 apply to v2 only, P7 to critical alerts, R7 to v1, R4 to alerts of Grafana in letters of either case |
| Response.AnswerUnique | src/llm/response.py:97-147 | a response admits one answer, with or without the alerts |
| Response.VerdictOrderIrrelevant | src/llm/response.py:97-147 | neither acceptance nor the answer depends on the order of the verdicts |
| Response.AnswerBindsAlerts | src/llm/response.py:97-162 | each alert's verdict names that alert, is one of the response's, cites an allowed principle and applies to the alert |
| LlmAudit.Journal.PrepareCycle | src/db/llm_audit.py:114-143 | the running or succeeded latest cycle, else a new one; refused where the stored request differs |
| LlmAudit.Journal.Start | src/db/llm_audit.py:151-157 | inserts the attempt unless its key is taken |
| LlmAudit.Journal.Finish | src/db/llm_audit.py:159-191 | the attempt row, if there, gets the result |
| LlmAudit.Journal.CompleteBatch | src/db/llm_audit.py:193-198 | the cycle, if there, is marked succeeded or exhausted |
| Protocol.StepKeeps | src/llm/assess.py:264-400 | every step, crashes included, keeps the invariant tying journal, process and calls together |
| Protocol.CalledAtMostOnce | src/llm/assess.py:268-300 | over any interleaving of attempts, crashes and restarts each attempt of each cycle reaches the model at most once |
| Protocol.AtMostThreeCalls | src/llm/assess.py:264-300 | no cycle makes more than 3 calls |
| Protocol.AttemptsArePrefix | src/llm/assess.py:268-354 | stored attempts are a prefix of 1, 2, 3 whose earlier members all failed or were interrupted |
| Protocol.WinnerIsLatest | src/db/llm_audit.py:114-143 | a stored answer belongs to the batch's latest cycle, is the only one there, and no attempt of that batch is on its way to the model |
| Protocol.NeverRequestedAgain | src/llm/assess.py:268-300 | once an answer is stored it stays, and the batch is never sent again |
| Protocol.ReplaysTheSameAnswer | src/llm/assess.py:280-311 | every later outcome of the batch is the stored answer |
| Attempts.Ask | src/llm/assess.py:276-354 | a new attempt is journalled, sent, judged and its result journalled: a run of protocol steps, with exactly one call |
| Attempts.Replay | src/llm/assess.py:280-354 | a stored attempt is worth what is stored: unfinished ones become failures, answers are judged again |
| Attempts.AttemptBatch | src/llm/assess.py:245-400 | the loop is a run of protocol steps; its outcome is the first accepted answer among the attempts, stored or asked for, or the status of the last failure; it leaves the calls, rows and cycle mark that `AttemptLaws` spells out |
| AttemptLaws.FirstAcceptedWins | src/llm/assess.py:264-377 | where attempt n of 3 is the first whose text, stored or replied, answers the batch, exactly the attempts up to n that were not stored are sent, once each and in order, the outcome is that answer, and it is stored in a cycle marked succeeded |
| AttemptLaws.NoneAcceptedGivesUp | src/llm/assess.py:264-400 | where none is, all three are used up, the outcome is the third's failure under its own status, and the cycle is marked exhausted |
| AttemptLaws.ThreeCallsOfANewCycle | src/llm/assess.py:264-400 | in any run, a new cycle whose model never gives an accepted answer makes exactly the calls 1, 2 and 3 |
| AttemptLaws.RefusedExactly | src/db/llm_audit.py:120-127 | a batch is refused exactly when another request is stored for it, and then nothing is sent or written |
| Attempts.StoredAnswerWins | src/llm/assess.py:280-311 | a batch with a stored answer comes to that answer again, whatever the model would say now |
| Assess.RequestHash | src/llm/assess.py:169-181 | an encodable batch always gets its request, which is lossless |
| Assess.JobMeans | src/llm/assess.py:169-181 | the hash journalled is that of the batch's request under the ruleset and prompt versions given |
| Assess.AssessAlerts | src/llm/assess.py:122-242 | the loops write the outcomes of reused alerts and of every batch, batch after batch, over a run of protocol steps; None exactly where batching, encoding or the journal raises; `Coverage` says what the outcomes are |
| Coverage.OneOutcomeEach | src/llm/assess.py:139-242 | the alerts of the outcomes written are a permutation of the input |
| Coverage.AssessmentIsExhaustive | src/llm/assess.py:139-242 | every alert ends with a state exactly when the configured size is not negative or everything was reused |
| Coverage.OwnOutcomeEach | src/llm/assess.py:150-240 | each alert gets its own outcome exactly when no two different alerts share an identity |
| Coverage.AllOrNothing | src/llm/assess.py:196-240 | of every batch either all alerts carry the verdicts about them from one accepted response, or all are unassessed for one reason; carrying fixes state, principle, confidence and justification |
| Coverage.EveryOutcomeExplained | src/llm/assess.py:139-242 | every outcome is that of a stored verdict or of its alert's batch; its state is flagged exactly for a catalogue violation of high confidence, good exactly for no violation, for review otherwise, and unassessed exactly for a batch that gave up |
| Coverage.StoredVerdictIsReused | src/llm/assess.py:139-157 | an alert with a stored verdict carries it, marked as reused |
| Coverage.NewVerdictsExact | src/llm/assess.py:196-228 | the verdicts to store are those of all alerts of all answered batches, and no others |
| Coverage.LastIsRecorded | src/llm/assess.py:196-240 | where alerts share an identity the last outcome written stands |
| Assess.VerdictKeyTells | src/llm/assess.py:143 | stored verdicts are looked up by application and key field, and by nothing else |
| Coverage.AJudgeExists | src/llm/assess.py:303-311 | one judge can know the accepted responses of all batches of a run |
| Publication.CheckPublication | src/review/publication.py:68-138 | allows exactly what the rules permit, said of instants: 168 hours, a run not yet published, a week with this window exactly if one is replaced, no instant shared with any other week, and no gap unless one is allowed or a week replaced; refuses as overlapping exactly when an instant is shared; names the first week with the same window as the replaced one, and the first rule broken |
| Publication.OverlapIsShared | src/review/publication.py:105-110 | two weeks overlap exactly when some instant lies in both half-open windows |
| Publication.PermittedMeans | src/review/publication.py:68-138 | the decision follows the rules over instants, in both directions |
| Repositories.Store.PersistRun | src/db/repositories.py:241-309 | refused exactly for a published run or a row that refers to no run; otherwise replaces the run's rows in all child tables and inserts missing verdicts |
| Repositories.Store.InsertVerdictIfAbsent | src/db/repositories.py:312-330 | inserts only a key that is not there |
| Repositories.Store.PublishRun | src/review/publication.py:183-261 | publishes exactly when permitted, withdrawing the replaced week; otherwise changes nothing and says why |
| Repositories.PublishMeans | src/review/publication.py:183-261 | it publishes exactly when the run is there and completed, operator and note fit in 128 and 4000 characters, and the rules over instants hold of its week; the row added has the run's own team and window and the stripped texts |
| Repositories.ReplaceMeans | src/review/publication.py:221-261 | a replacement withdraws the team's current week of the same window, with the time, the operator and the reason "replaced by run ...", and no other publication; without one none is withdrawn |
| Repositories.StripsBothEnds | src/review/publication.py:141-149 | stripping removes exactly the blank characters at both ends |
| Repositories.Store.UnpublishRun | src/review/publication.py:264-300 | withdraws the run's current publication exactly when there is one and operator and reason have 1 to 128 and 1 to 1000 characters, or changes nothing |
| Repositories.CurrentExact | src/review/publication.py:152-170 | the current weeks are exactly the team's publications that are not withdrawn, each under its own id |
| PublishedWeeks.StepSound | src/review/publication.py:183-300 | every transaction keeps the invariant of the current publications |
| PublishedWeeks.WeeksNeverOverlap | src/review/publication.py:68-138 | at any point of any run two current publications are of different runs, each covers exactly 168 hours, and those of one team do not overlap |
| PublishedWeeks.NextWeekIsPublished | src/review/publication.py:183-261 | in every reachable store a completed, unpublished 168-hour run whose window starts where its team's last current week ends, or whose team has none, is published without a replacement and without a gap allowed |
| PublishedWeeks.OneChain | src/review/publication.py:116-137 | without `allow_gap` and without withdrawals a team's weeks are one back-to-back chain |
| History.PersistReplacesOnlyItsOwn | src/db/repositories.py:263-304 | persisting replaces the run's rows, and leaves all other runs' rows alone exactly when all rows brought are its own |
| History.HistoryExtends | src/review/publication.py:221-300 | no publication is ever removed or edited, except for being withdrawn once |
| History.PublishedWeekIsFrozen | src/db/repositories.py:251-261 | while a publication is current, the run behind it and all its rows stay what they were |
| History.VerdictIsForGood | src/db/repositories.py:312-330 | a stored verdict never changes |
| History.FirstVerdictWins | src/db/repositories.py:306-330 | of several verdicts brought for a new key the first is stored |
| Reader.ScanSchema | src/es/reader.py:94-216 | a normal return has consumed every hit of every page once, as many as the first page's exact total; a server that answers in one strict total order is read to the end, in order, in floor(n / size) + 1 pages |
| Reader.ReadInTimestampOrder | src/es/reader.py:132-170 | what is read from such a server comes in timestamp order |

## Left out

- Panel SQL: its lexer, parser and leaf interpretation. A leaf carries the row predicate it was parsed to; leaf kinds that decide nothing about a row are one kind.
- The bodies of R1-R4 and R7-R10; each is a function of one row.
- Rounded figures of R6's evidence, which are functions of the facts; events per 24 hours is kept as the exact pair behind the quotient.
- Bit masks are sets of bit numbers, and nested records of days and scopes are values in maps, so aliasing between them is not modelled.
- Order of dictionary iteration, where no result depends on it: maps are iterated in an arbitrary order.
- Normalize.SplitUndoesIdentity: `int()` also accepts signs, spaces and underscores before the colon; the model reads plain digits, and the round trip needs no other.
- Strings are sequences of characters without lone surrogates, and object keys are strings.
- Response.ValidateResponse: the provider comparison for R4 lower-cases ASCII letters only.
- Notes, unmeasured leaves and per-leaf counters of the suppression summary.
- `rollup_volume`, ratios, the readiness percentage and the phase, which are arithmetic on the figures above.
- Assess.AssessAlerts: a call without a journal, the reversed and unfactored evaluation trials, `configure`, the audit list of attempts, and all timestamps, durations and metadata.
- Attempts.AttemptBatch: a failure's message. A replayed failure is wrapped again by the source, so statuses are compared, not message texts.
- Attempts.AttemptBatch: exceptions other than transport and response errors end the process; they are crashes in `Protocol`.
- LlmAudit.Journal.PrepareCycle: cycles are kept by batch and number rather than by the hash of both, and one journal serves one scope under its session lock.
- Repositories.Store.PersistRun: the projection to declared columns, panel parses, and the child tables' primary keys. The database's foreign keys from child rows to runs are kept.
- Repositories.Store.PublishRun: publication ids are positions in the table, and rows are read in that order; the unique indexes are not modelled because the invariant implies them.
- SQL text, isolation levels and locks: each `transaction()` block is one step.
- Reader.ScanSchema: the query, the point in time id, timing and logging. A server that never stops answering full pages is outside the model, as every normal return has a bound on its calls.
- The weekly planner and runner, HTTP applications, reports, charts, configuration, the model client and the command line.
