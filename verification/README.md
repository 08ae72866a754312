# Exactly-once accounting of the flight pipeline, in Dafny

The pipeline processes flights in stages of N replicas that share a broker queue. Its
hard part is counting: each stage must know when it has processed every message of a
client, although messages are redelivered, replicas crash between any two log appends,
and the end-of-file (EOF) token that collects the counts travels while processing goes
on. This project models that accounting and proves it, with the logs, files, codecs and
the stateful queries it rests on.

`dafny verify dfyconfig.toml` verifies the whole project. The program itself was never
executed for it.

## What is modelled

| file | content |
|---|---|
| `EofRing` | what one replica does with the EOF token in Discovery, Aggregation and Finish; the duplicate count |
| `Accounting` | the arithmetic of the decision: received minus repeats against the announced number |
| `EofStage`, `EofSafety` | one stage as a state machine (arrivals, deliveries with four outcomes, copies handed back unhandled, restarts, messages of other clients, token hops in any interleaving), where a crash goes back to the last COMMIT, and the proof of its invariant |
| `EofRounds`, `EofProgress` | how long rounds and tours take and how often callbacks run; a quiet complete round succeeds if and only if no counter has lost a saved message |
| `EofTwice` | what an undisturbed round decides, by any route, and what a second token for the same EOF makes the stage announce |
| `Pipeline` | a chain of stages: each stage is the honest environment that the next one needs |
| `Logs`, `LogSearch`, `LogFiles`, `LogText` | the communication log as cycles of lines, restoring and searching it, the chunked backward reader and the truncation on characters, and the text of the lines |
| `Recovery`, `ExactlyOnce`, `RestoredCounts` | one replica with three logs and its memory, a crash after any append, and what a restart rebuilds |
| `Refinement`, `Cluster` | the recovery machine refines the abstract replica step by step, and N of them with their broker queue refine the stage machine over whole runs |
| `Loggers`, `Answers`, `Receivers` | the classes that write the logs, gather a processor's answers and handle messages, proved to do exactly what the models above say |
| `Routes`, `Permutations`, `AboveAverage` | the distributed above-mean query against the query over all flights |
| `TwoFastest`, `Durations`, `Decimals` | the two fastest trips per trajectory, duration texts, decimal numerals |
| `Codec`, `Framing`, `Client` | bytes of the seven message kinds, delimiter framing, the client's stop-and-wait resending |
| `Sequences`, `Messages` | shared definitions |

## Main results

- `EofSafety.EofSafety`: in every run of a stage, a round succeeds only when every message
  has been saved by some replica; the number passed on is then the exact number of distinct
  outputs, and every id that is not on the list passed on is over for good. Crashes may
  lose counts and suspicions that no COMMIT covers; safety does not depend on them.
- `Cluster.ClusterSafety`: the same for the records on disk of N recovery machines, with
  crashes after any append and nothing assumed about COMMITs, since every run of the
  machines is a run of the stage (`Cluster.RunRefines`).
- `Pipeline.ChainSafety`: the same for a chain of stages; only the first one has to trust
  its environment.
- `EofProgress.FreshRound`: a round over a complete stage in which nothing else happens
  succeeds if and only if no replica counts less than it has saved, so late duplicates
  delay a decision and never prevent it. `EofProgress.IntactExactly` says which events
  lose a count.
- `EofRounds.TopicTour`: in topic mode the whole tour of the token is never refused, and
  its length is exact.
- `EofTwice.SameDecision`, `EofTwice.SecondDecision` and `EofTwice.AnnouncedTwice`: the
  route of an undisturbed round does not matter; a second one over the same EOF announces
  twice the exact number less what the first deciding replica had sent.
- `ExactlyOnce.ExactlyOnceState`: after every harmless run of deliveries, EOF callbacks,
  crashes and restarts the catcher log, the saves and, for a stateful processor, the
  connection log hold the same ids, each once, and memory agrees with them.
  `ExactlyOnce.RunAgreesExactly`: in a run that can happen at all they agree all the way if
  and only if every step is harmless, which is checked before the step.
- `RestoredCounts.RunCountsExactly`: the counters are the numbers of saved messages all the
  way if and only if every step is separated, which is checked before the step too.
- `LogFiles.ReaderIsExact` and `LogFiles.CutUndoesAppend`: the chunked backward reader is
  right for every chunk size exactly when the file has no blank line, and cutting the last
  line undoes one append.
- `AboveAverage.QueryIsSequential` (from the balancers' batches to the answers), `TwoFastest.FastestAreLeast`,
  `Codec.MessageRoundTrip`, `Framing.ReadsBackExactly`, `Durations.DurationRoundTrip`.

## Hypotheses

The code has these properties only under the following conditions. Where a condition is
marked "exact", a lemma proves that the property holds if and only if it holds.

- Every call of the logger is one atomic append. `restore` has no branch for a log that
  ends in the JSON line of a state (`commons/logger.py:130-146`).
- After an unsaved message `restore` goes back to the last COMMIT, not to the last SAVE
  DONE (`commons/logger.py:160-168`). The counters are right if and only if no save before
  it lacks its COMMIT (exact: `RestoredCounts.RestoredExactly`,
  `RestoredCounts.UnsavedCrashCounts`). `RestoredCounts.SecondCrashLosesACount` shows two
  crashes with no COMMIT between them losing a count. The safety theorems do not need this;
  a stage that has lost a count can no longer close (exact: `EofProgress.QuietDecision`,
  `EofProgress.FreshRound`, `EofProgress.IntactExactly`).
- A suspicion that no COMMIT covers does not survive a second crash (exact:
  `EofSafety.SuspicionStaysExactly`). Safety does not need it to, because the message's
  count is lost with it.
- The undo compares ids with `startswith` (`commons/logger.py:217`, `commons/logger.py:230`).
  A crash before the save keeps the logs in agreement if and only if the message had left
  all of its lines or its id is not a decimal prefix of the last saved id of the client
  (exact: `ExactlyOnce.CrashAgreesExactly`). `ExactlyOnce.PrefixLosesARecord` is the
  failing input: message 1 interrupted after message 12.
- The undo runs again at every restart while the log still ends in the unsaved message
  (`commons/logger.py:139-145`). A restart, or a crash before START, keeps the agreement if
  and only if the log does not end in an unsaved message whose id is such a prefix (exact:
  `ExactlyOnce.RestartAgreesExactly`, `ExactlyOnce.SecondRestartExactly`).
  `ExactlyOnce.SecondRestartLosesARecord` is the failing input: message 1 interrupted with
  all of its lines out, after message 12, and a second restart.
- An EOF callback that sends a message appends a SENT line behind the last message, often
  behind its COMMIT (`commons/connection.py:207`, `commons/communication.py:776`). Until the
  next message starts, a restart takes the last saved message for unsaved and takes back its
  lines in the other logs, whatever its id (exact: `ExactlyOnce.RestartAgreesExactly`,
  `ExactlyOnce.CallbackLosesTheLast`), and the counters are wrong (exact:
  `RestoredCounts.RestartCountsExactly`, `RestoredCounts.CallbackMiscounts`).
- A message for a stateful processor has at least one row, because splitting the payload
  never gives an empty list (`commons/communication.py:354`). One without rows would be
  caught and saved but leave no connection record (`commons/log_storer.py:41`; exact:
  `ExactlyOnce.ReceiveAgreesExactly`).
- With the duplicate catcher a message that is handed back because it is not ready is refused
  when it returns, and is lost; a comment in the code warns of it
  (`commons/communication.py:270-273`). Logs and memory keep their agreement if and only if
  it was a duplicate anyway (exact: `ExactlyOnce.HandBackAgreesExactly`).
- Two routes have the same name if and only if they are equal or one start continues the
  other behind a dash (exact: `Routes.SameNameExactly`). Airport codes have no dash, so a
  route is a pair of airports (`AboveAverage.CountIsOfPair`, `TwoFastest.DosMasRapidos.Process`);
  `Routes.DashesClash` is the failing input.
- In the stage machine the EOF callback sends the EOF and no messages before it: its
  processors have `finish_processing: pass`. Messages that `finish_processing` returns are
  sent and counted before the EOF (`commons/connection.py:204-217`), so the announced number
  is then the verdict plus their number. The processors that return some (the grouper and
  the two-fastest stage) run with the duplicate catcher and are not stages of that machine.
- The COMMIT is written for PROTOCOL messages only (`commons/communication.py:331-335`), so
  the recovery model covers that branch and not PROTOCOL_RESULT, which shares the handler
  but never commits.
- Duplicates are keyed on the id together with the sent flag (`commons/log_searcher.py:25-29`).
  In the stage machine whether a message emits is a function of its id.
- The deciding replica overwrites its own `messages_sent` (`commons/communication.py:461`).
  The exact count is that of the first decision for a client; a second undisturbed round
  announces another number unless that replica had sent everything (exact:
  `EofTwice.SecondDecision`). `EofTwice.TwoThenThree` is the input: two replicas with one
  message each announce 2 and then 3.
- The environment of a stage sends only the client's messages, its EOF announces their
  number, and an id that is sent twice is on the EOF's list. `Pipeline.PassedIsHonest`
  proves this of every stage for the next one.
- Taking the token and publishing its successor is one step: a replica may restart before or
  after it, not in between. A crash in between leaves both tokens on the broker; what the
  two of them announce is `EofTwice.AnnouncedTwice`.
- Files hold ASCII text without line breaks other than the newline. JSON is an opaque
  writer of one line that begins with a brace.
- Fares and means are real numbers, and the text of a number reads back as that number.

## Where comments and code differ

The code is followed.

- The layout comment of the discovery token puts the list of suspects at N+24
  (`commons/message.py:161-162`); the count before it has four bytes
  (`commons/message.py:226`), so the list starts at N+20.
- `search_processed` says that it finds ids that were processed and sent
  (`commons/logger.py:236-239`); it finds every processed id and marks the sent ones.
- `count_duplicates` removes keys whose count was 0 (`commons/communication.py:520-521`);
  a counted key has occurred at least once, so nothing is ever removed.

## Model

| member | source | states |
|---|---|---|
| EofRounds.HopStep | commons/communication.py:376-563 | Any replica refuses a token it has seen; otherwise it forwards the token one step closer to the decision, or decides: start over from the EOF, or finish with exactly one callback. |
| EofRing.SenderlessHop | commons/communication.py:565-580 | A receiver without a sender adds nothing to the token's sent count and overwrites nothing. |
| EofRounds.RoundLengths | commons/communication.py:389-563 | For every order of deliveries, a failed round takes exactly 2N-1 accepted deliveries and the successful one 3N-2; the EOF callback runs once in queue mode and once on every replica in topic mode. |
| EofRounds.SomeoneAccepts | commons/communication.py:390-436 | A token is never stuck: some replica has not seen it. |
| EofRounds.OneCycle | commons/communication.py:654-667 | The successor map i to i mod N + 1 is one cycle of length N: fewer steps lead elsewhere, N steps lead back. |
| EofRounds.NextIsNew | commons/communication.py:654-667 | Going round from any replica, the next one has not been seen before the circle closes. |
| EofRounds.TopicHop | commons/communication.py:543-667 | In topic mode a delivery along the ring is not refused, and the token stays on the ring. |
| EofRounds.TopicTour | commons/communication.py:376-667 | From any start and whatever the replicas answer, the token that follows the ring is never refused: every failed round takes 2N-1 deliveries, the last one 3N-2, and then the callback has run once on every replica. |
| Accounting.SearchCount | commons/logger.py:236-272 | The search finds every record of a searched id, as often as it was saved, however often the id is searched for, and nothing else. |
| Accounting.CorrectedListCount | commons/communication.py:509-530 | Received minus repeats never exceeds the number of distinct messages, and equals it if and only if every single one counts once. |
| Accounting.CorrectedSentCount | commons/communication.py:509-530 | When every message counts once, the corrected sent count is the number of messages that emit. |
| Accounting.EqualityMeans | commons/communication.py:438-476 | R - D <= S always; equality forces every message to have been counted and the sent count to be exact, in whatever order the replicas appended their records. |
| EofSafety.DeliverKeepsRetired | commons/communication.py:227-335 | Nothing happens any more to a message whose last copy has left the broker. |
| EofSafety.FirstDelivery | commons/communication.py:227-335 | The only copy of a message, delivered for the first time and acknowledged, ends there with at most one save and one output. |
| EofSafety.ComesIsOver | commons/communication.py:262-335 | Whatever a delivery leaves in the counters in use, in the last COMMIT or for the next restart: a message that arrived once, is counted there and is not suspected there is over. |
| EofSafety.DiscoveryUpdate | commons/communication.py:565-595 | Discovery keeps the token's counters equal to the sizes of a snapshot of the logs seen so far, with every unsuspected snapshot entry over. |
| EofSafety.AggregationUpdate | commons/communication.py:597-628 | Aggregation finds, at every replica it has seen, each suspected record at least as often as the snapshot counted it, although the replica has gone on processing. |
| EofSafety.CountedOrFound | commons/communication.py:389-476 | A suspect is found at least as often as it was counted; any other message was counted at most once. |
| EofSafety.Decision | commons/communication.py:438-476 | The equality branch is reached only when every message has been saved; the announced number is then exact and what is not announced as a suspect is over. |
| EofSafety.DecidingHop | commons/communication.py:438-507 | The deciding replica publishes a true verdict or the EOF it came from, and keeps the stage invariant. |
| EofSafety.ArriveInvariant | commons/communication.py:227-262 | An arrival at any moment, before or after the EOF, keeps the stage invariant. |
| EofSafety.RedeliverInvariant | commons/communication.py:208-262 | So does a prefetched message that the broker hands out again, flagged, without any replica having handled it. |
| EofSafety.NodeEventInvariant | commons/restorer.py:21-57 | So does a replica that goes on with a memory it had: the last COMMIT, the state a restart gives back, or the one in use. |
| EofSafety.RunInvariant | commons/communication.py:227-563 | The stage invariant holds after every run of arrivals, deliveries, redeliveries, crashes back to the last COMMIT, other clients' messages and token hops. |
| EofSafety.EofSafety | commons/communication.py:389-507 | Once a round has succeeded in any run, every message of the client has been saved by some replica, the number passed on is the number of distinct outputs, and every id not passed on as a suspect was published at most once and has no copy left. |
| EofSafety.ReachableFacts | commons/communication.py:376-563 | In every reachable state the guarantee holds, and the token is finishing if and only if there is a verdict. |
| EofSafety.FirmStays | commons/restorer.py:45-51 | A suspect of the counters in use, of the last COMMIT and of the restart state stays one in every run. |
| EofSafety.SuspicionStaysExactly | commons/logger.py:160-193 | A suspicion survives every run if and only if all three hold it, and the COMMIT of any message makes it so. |
| EofTwice.SameDecision | commons/communication.py:389-476 | Two undisturbed rounds over the same counters and logs decide the same, by any two routes: success, number, and suspects up to their order. |
| EofTwice.SecondDecision | commons/communication.py:453-476 | After a successful round a second one over the same EOF succeeds too, and announces twice the first number less what the first deciding replica had counted; the two are equal if and only if it had counted all. |
| EofTwice.TwoThenThree | commons/communication.py:453-476 | Two replicas that have handled and sent one message each announce 2 and then 3. |
| EofTwice.AnnouncedTwice | commons/communication.py:376-507 | In a complete stage with intact counters the first round announces the number of distinct outputs and a second one twice that less the deciding replica's own, right if and only if that replica had sent everything. |
| EofProgress.UnsuspectedSavedOnce | commons/communication.py:262-335 | In a complete stage a message that some replica counts and nobody suspects was saved exactly once and is over. |
| EofProgress.CountsOnceExactly | commons/communication.py:509-530 | In a complete stage a message counts once in the corrected number if and only if each of its saves is counted. |
| EofProgress.AllCountedIsIntact | commons/communication.py:280-284 | Every save of every message is counted if and only if every replica's counter is the size of its log. |
| EofProgress.IntactExactly | commons/logger.py:154-193 | An event keeps every counter equal to its log if and only if it is no crash, or one that goes back to a state that had counted as much as the one in use. |
| EofProgress.QuietDecision | commons/communication.py:438-476 | With every message saved and an up-to-date token, the equality holds if and only if no counter has lost a saved message, however many duplicates there are. |
| EofProgress.QuietRound | commons/communication.py:389-507 | An up-to-date token in a complete stage decides at the end of its round, successfully if and only if no counter has lost a saved message. |
| EofProgress.FreshRound | commons/communication.py:376-507 | A new EOF token in a complete and quiet stage decides after its 2N-1 accepted deliveries, successfully if and only if no counter has lost a saved message. |
| Pipeline.VerdictIsAnnounced | commons/connection.py:179-217 | The EOF that the callback sends carries the corrected count and the suspects of the verdict, and one more for each message that the callback itself sends before it. |
| Pipeline.PassedIsHonest | commons/communication.py:757-813 | What a stage passes on is an honest environment for the next stage: its ids, their exact number, and every id sent twice on the list. |
| Pipeline.StageFacts | commons/communication.py:389-563 | In every state of every run of the chain each stage keeps its guarantee and has received exactly what the stage before has sent. |
| Pipeline.ChainSafety | commons/communication.py:389-563 | When stage k has closed, every stage before it has closed, has saved all its messages, and has announced the exact target of the stage behind it. |
| Logs.SkipUp | commons/logger.py:154-202 | Reading upwards stops at the last earlier line that starts with the token. |
| Logs.CommitLeadsToState | commons/logger.py:160-168 | The COMMIT line and the SAVE DONE line above it lead to the state of the last committed message. |
| Logs.Scan | commons/logger.py:113-208 | The scan of any log that ends in the lines of one message returns that message and the state it goes back to. |
| Logs.Restore | commons/logger.py:113-208 | The line-by-line scan of any log in the grammar, with SENT lines of EOF callbacks behind any message or above the first one, returns what its cycles say: kind, id, client and state. |
| LogSearch.TextRoundTrip | commons/log_searcher.py:9-12 | The text of a found record, with or without S, reads back as that record. |
| LogSearch.ToOpening | commons/logger.py:257-264 | The inner loop stops at the first SENT or START above a SAVE DONE line. |
| LogSearch.FoundIsSearch | commons/logger.py:236-272 | Over the lines of any log, the search is the search over the saved messages of the client. |
| LogSearch.SearchProcessed | commons/logger.py:236-272 | One entry for each SAVE DONE record of the client with a searched id, newest first, marked S exactly when that same cycle has a SENT line. |
| LogSearch.Parse | commons/log_searcher.py:36-41 | Parsing the found texts gives back the records. |
| LogSearch.SearchForDuplicateMessages | commons/log_searcher.py:36-41 | The whole search on the log lines equals the search on the saved records. |
| Decimals.StartsWithNumeral | commons/logger.py:217-221 | A line that begins with a numeral and goes on without a digit starts with an id if and only if the numeral does. |
| LogText.StartsWithToken | commons/logger.py:14-24 | A startswith test recognises exactly the lines written with that token, although the tokens share letters and states are JSON. |
| LogText.LinesOfTwelve | commons/logger.py:14-111 | The lines of message 12 of client 7, letter by letter. |
| LogText.IdsRoundTrip | commons/logger.py:154-159 | Splitting a written line at its token and at the slash reads back its ids. |
| LogText.LogReadsBack | commons/logger.py:378-409 | The file of any communication log is read back line by line, newest first, for every chunk size. |
| LogText.UndoOnFile | commons/logger.py:210-221 | Testing and cutting the last line of the connection log is undoing the last record. |
| LogText.UndoIdsOnFile | commons/logger.py:223-234 | Testing and cutting the last line of the catcher log is undoing the last id. |
| LogFiles.ReadBottomToTop | commons/logger.py:378-409 | The generator's loop over file positions, chunks and the remainder yields the lines that the recursive reading of the content yields. |
| LogFiles.BackwardIsReverse | commons/logger.py:378-409 | Without blank lines the reading is the reverse of the lines for every chunk size, wherever chunk boundaries fall. |
| LogFiles.ReaderIsExact | commons/logger.py:378-409 | The reading is the reverse of the lines for every chunk size if and only if the file has no blank line. |
| LogFiles.TruncateLastLine | commons/logger.py:343-375 | The in-place loop fails on the empty file and otherwise keeps the text up to the last inner newline, with its newline. |
| LogFiles.CutUndoesAppend | commons/logger.py:343-375 | Cutting undoes one append: the earlier lines stay, each ended by its newline, and one line leaves the empty file. |
| Recovery.PrefixOnDisk | commons/log_storer.py:40-61 | What is on disk after any prefix of the appends of one message. |
| ExactlyOnce.RecoverMemory | commons/communication.py:167-180 | A restart rebuilds from the logs a catcher that knows the logged ids and, if there is one, a stateful processor that has seen every record once. |
| ExactlyOnce.UndoAgreesExactly | commons/logger.py:210-234 | Logs that agree still agree after an undo if and only if the undone id is not a decimal prefix of the client's last saved one. |
| ExactlyOnce.RestartAgreesExactly | commons/logger.py:130-191 | A restart keeps logs and memory in agreement if and only if the log does not end in an unsaved message, or in SENT lines behind a saved one, whose id is such a prefix. |
| ExactlyOnce.ReceiveAgreesExactly | commons/log_storer.py:40-51 | Handling a new message keeps the agreement if and only if the message has a row or there is no stateful processor. |
| ExactlyOnce.HandBackAgreesExactly | commons/communication.py:266-274 | A message that is not ready keeps the agreement if and only if it was a duplicate; otherwise the catcher refuses it when it returns. |
| ExactlyOnce.CrashAgreesExactly | commons/logger.py:154-234 | A crash after any append and its restart keep the agreement if and only if the message had left all of its lines, or is unsaved and its id is not a decimal prefix of the last saved one. |
| ExactlyOnce.PrefixLosesARecord | commons/logger.py:210-221 | Message 1 interrupted after message 12 was saved takes back the record of 12. |
| ExactlyOnce.SecondRestartExactly | commons/logger.py:139-191 | Where the restart after an unsaved message was right, a second one is right if and only if the id is not a decimal prefix of the last saved one. |
| ExactlyOnce.SecondRestartLosesARecord | commons/logger.py:139-191 | Message 1 interrupted with all of its lines out after message 12 was saved: the first restart is right, and the second one takes back the record of 12. |
| ExactlyOnce.CallbackLosesTheLast | commons/logger.py:139-191 | A restart behind an EOF callback that has sent a message takes back the last saved message, whatever its id. |
| ExactlyOnce.StepAgreesExactly | commons/communication.py:237-335 | Every possible step, a delivery, a hand-back, an EOF callback, a crash after any append or a restart, keeps the agreement if and only if its check before the step holds. |
| ExactlyOnce.RunAgreesExactly | commons/communication.py:237-335 | In every possible run logs and memory agree in every state if and only if every step is harmless when it comes. |
| ExactlyOnce.ExactlyOnceState | commons/communication.py:237-335 | In every harmless run the catcher log and the SAVE DONE lines of every client hold the same ids, each once, exactly those are refused, and a stateful processor's connection log holds the same ids and its memory has applied exactly those. |
| RestoredCounts.RestoredExactly | commons/logger.py:154-193 | After an interrupted unsaved message the restored counters are right if and only if no save before it lacks its COMMIT. |
| RestoredCounts.RestartCountsExactly | commons/logger.py:130-208 | A restart finds right counters if and only if the log ends in a save, or in an unsaved message with no save since the last COMMIT. |
| RestoredCounts.CallbackMiscounts | commons/connection.py:204-207 | A message that an EOF callback sends is counted without a save that stands for it. |
| RestoredCounts.StepCountsExactly | commons/restorer.py:21-57 | Every possible step keeps the counters right if and only if its check before the step holds. |
| RestoredCounts.RunCountsExactly | commons/restorer.py:21-57 | In every possible run the counters are right in every state if and only if every step is separated when it comes. |
| RestoredCounts.CountsInEveryRun | commons/restorer.py:21-57 | In every run of deliveries, messages that are not ready, restarts and crashes that are separated by commits the counters are the numbers of SAVE DONE records and of their outputs, for every client. |
| RestoredCounts.InterruptedIsSuspected | commons/restorer.py:45-51 | A message interrupted before its COMMIT is among the suspects after the restart. |
| RestoredCounts.SecondCrashLosesACount | commons/logger.py:160-168 | For any two messages, a crash after the save of the first and one before the save of the second leave a wrong counter. |
| RestoredCounts.UnsavedCrashCounts | commons/logger.py:160-168 | A crash before the save leaves right counters if and only if nothing was pending before it. |
| Refinement.ReceiveRefines | commons/communication.py:237-335 | From any state, handling a message changes what the EOF protocol sees of each client, what its last COMMIT holds and what a restart would give back exactly as the stage machine says. |
| Refinement.HandBackRefines | commons/communication.py:266-274 | So does a message that is not ready: its START line makes it a suspect of the next restart. |
| Refinement.CrashRefines | commons/restorer.py:21-57 | So does a crash after any append, followed by the restart: before START it is a restart, before the save everything since the last COMMIT is forgotten and the message suspected, after the save it counts as well, and after the COMMIT it is a restart behind a finished message. |
| Refinement.StepRefines | commons/communication.py:227-335 | Every step of the recovery machine is the abstract replica's, for every client. |
| Cluster.RunRefines | commons/communication.py:227-563 | Every run of N recovery machines with their queue, their token and other clients' messages is an honest run of the stage machine that ends in the matching state. |
| Cluster.ClusterSafety | commons/communication.py:389-507 | In every such run, once a round has succeeded, each message of the client is in a SAVE DONE record on some replica's disk, the number passed on is the number of distinct outputs, and every id not passed on as a suspect was published at most once and has no copy left. |
| Loggers.DuplicateCatcher.IsDuplicate | commons/duplicate_catcher.py:8-17 | Answers whether the id was known, and knows it afterwards. |
| Loggers.RestoreCatcher | commons/communication.py:167-180 | The replayed catcher knows exactly the logged ids. |
| Loggers.Logger.Start | commons/logger.py:37-47 | One append: exactly the START line, and the log stays in the grammar. |
| Loggers.Logger.Sent | commons/logger.py:49-59 | One append at any time: a SENT line of the current cycle, or one behind a saved message or above the first one, and the log stays in the grammar. |
| Loggers.Logger.SaveConnection | commons/logger.py:75-86 | One append to the client's connection log. |
| Loggers.Logger.SaveDuplicateCatcher | commons/logger.py:88-99 | One append to the client's catcher log. |
| Loggers.Logger.SaveCommunication | commons/logger.py:61-73 | One append: SAVE BEGIN, the state and SAVE DONE, in that order, of the current cycle. |
| Loggers.Logger.Commit | commons/logger.py:101-111 | One append: exactly the COMMIT line of the current cycle. |
| Loggers.Logger.Restore | commons/logger.py:113-234 | Returns what the cycles say, and takes back the records of an unsaved message from the two other logs. |
| Loggers.Logger.SearchForDuplicateMessages | commons/log_searcher.py:36-41 | On the object, the search equals the search on the saved records. |
| Loggers.LogStorer.NewMessageReceived | commons/log_storer.py:13-20 | Forgets what the last message buffered and starts the new one. |
| Loggers.LogStorer.MessageSent | commons/log_storer.py:22-23 | One SENT append for the current message, or for none in a new process. |
| Loggers.LogStorer.FinishStoringMessage | commons/log_storer.py:40-58 | Appends in a fixed order the connection record if there are rows, the catcher line if asked for, and the save, each with the current ids. |
| Loggers.LogStorer.CommitMessage | commons/log_storer.py:60-61 | One COMMIT append for the current message. |
| Loggers.RestoreCounters | commons/restorer.py:21-57 | The counters of the restored state, with an interrupted message among the suspects, and the disk as the recovery machine leaves it. |
| Receivers.Sender.SendAll | commons/communication.py:757-776 | One more message counted for the client, and one SENT append, at any time. |
| Receivers.Sender.SendEof | commons/communication.py:795-813 | Publishes one EOF with the sender's suspects: with its counter, or with the given number if that is not 0. |
| Answers.ProcessedMeans | commons/connection.py:95-111 | What the answers come to: all their rows in order, with an EOF exactly if one asks for it, unless one is not ready or raises, and then it is the first such answer that counts. |
| Answers.Gather | commons/connection.py:95-111 | The loop over the answers comes to exactly that. |
| Answers.ByTopic | commons/connection.py:137-144 | The dictionary's topics are those of the rows, and each holds all rows of its topic in order. |
| Receivers.Tally | commons/communication.py:513-517 | The dictionary loop counts every record with its multiplicity, each key once. |
| Receivers.TakeOneOff | commons/communication.py:518-522 | Every count less one. |
| Receivers.SentSurplus | commons/communication.py:524-531 | Adding up the counts less one gives entries minus distinct entries, and the same for the sent records. |
| Receivers.CountRepeats | commons/communication.py:509-541 | The loops over the dictionary give the entries less the distinct entries, and the same for the sent ones, times the balancer's factor if it is set and not 0. |
| Receivers.WholeCycle | commons/log_storer.py:13-61 | All the appends of a message make one complete cycle, its record and its catcher line. |
| Receivers.Receiver.CheckDuplicate | commons/communication.py:337-346 | Answers whether the client's catcher knew the id; no other client's catcher changes. |
| Receivers.Receiver.SendMessages | commons/connection.py:137-177 | Counts and logs one message for all rows, or one for each distinct topic. |
| Receivers.Receiver.InputCallback | commons/connection.py:87-132 | Buffers the rows; without rows to send nothing is logged or counted; otherwise one message (or one for each topic) is counted, with a SENT line for each and one more; an EOF follows exactly if an answer asks for it and none is not ready or raises. |
| Receivers.Receiver.EofCallback | commons/connection.py:179-217 | Publishes the EOF that the sender's counter and suspects say. |
| Receivers.Receiver.EofCallbackWithOutput | commons/connection.py:204-217 | Sends and counts one message first, and the EOF carries one more; log and counters change as in the recovery machine. |
| Receivers.Receiver.Callback | commons/communication.py:227-335 | Appends exactly the cycle of the recovery model in its order and changes the counters as it says, also when processing raised; a duplicate, or a body that does not parse, leaves no trace, and the latter no answer either; a message that is not ready leaves START and its suspicion. An EOF is published only behind an acknowledged message whose answers ask for it, none of them not ready or raising, and then exactly one. |
| Receivers.Receiver.SaveMessage | commons/communication.py:280-335 | Counts the message once and saves counters, suspects and logs in order, then commits. |
| Receivers.Receiver.UpdateAggregationEof | commons/communication.py:597-628 | The object builds the aggregation token of the model, without a search when it has a catcher. |
| Receivers.Receiver.HandleEofFinish | commons/communication.py:543-563 | The object performs the finish step of the model: tokens, ACK or NACK and callbacks; other clients and the logs are unchanged. |
| Receivers.Receiver.Succeed | commons/communication.py:453-476 | The sender takes over number and suspects, and the published EOF carries exactly them. |
| Receivers.Receiver.Decide | commons/communication.py:438-507 | The decision of the model; if received less repeats is the target the stage's EOF carries sent less repeats and all suspects, otherwise the original EOF is requeued. |
| Receivers.Receiver.HandleEofAggregation | commons/communication.py:420-507 | The aggregation step of the model: refuse, forward, or decide. |
| Receivers.Receiver.HandleEofDiscovery | commons/communication.py:389-418 | The same for discovery, which goes straight on to aggregation at the last replica. |
| Receivers.Receiver.HandleEof | commons/communication.py:376-387 | The same for an EOF, which starts discovery with empty counters. |
| AboveAverage.BalanceBatch | commons/connection.py:137-162 | The topics of a batch are exactly those of its flights, and each topic is sent its flights in order. |
| AboveAverage.AnyDelivery | processors/load_balancer/load_balancer.py:15-22 | For any batching and any order of delivery every grouper has seen exactly the flights of its queue. |
| AboveAverage.Grouper.GroupPricesByRoute | processors/grouper/grouper.py:80-87 | The dictionary holds for every route seen the fares of its flights in order, and nothing else. |
| AboveAverage.Grouper.SumRoutes | processors/grouper/grouper.py:113-118 | Summing route by route gives the sum and the number of all flights seen. |
| AboveAverage.Grouper.ProcessSingle | processors/grouper/grouper.py:157-174 | Sends on one row for each route with a fare above the mean and for no other, holding exactly the fares p of the route with p > mean, each as often as it was seen. |
| AboveAverage.CountIsOfPair | processors/grouper/grouper.py:89-93 | The fares counted for a route are those of the flights with its start and destination. |
| AboveAverage.MediaGeneral.Process | processors/media_general/media_general.py:18-29 | Replies to the k-th partial sum only, with the mean of all that arrived, or fails when there was no flight. |
| AboveAverage.MeanIsGlobal | processors/media_general/media_general.py:18-29 | In whatever order the k partial sums arrive, the last one gives the mean of all flights; with no flights the division fails; before it nothing is sent. |
| AboveAverage.GetMax | processors/max_avg/max_avg.py:27-28 | The maximum is one of the prices and none is above it. |
| AboveAverage.RouteAtHome | processors/load_balancer/load_balancer.py:15-22 | All fares of a route above the mean are at one grouper and none elsewhere. |
| AboveAverage.DistributedIsSequential | processors/max_avg/max_avg.py:8-28 | For any flights (at least one), hash, number of groupers, batching and delivery order, an answer comes out exactly when average and maximum are those of the route's fares p with p > sum of all fares / number of flights, each as often as it was seen. |
| AboveAverage.QueryIsSequential | processors/media_general/media_general.py:18-29 | From the balancers' batches on, for any delivery order and any order of the partial sums: nothing is sent before the last partial sum, no flights make it fail, and otherwise the mean it sends makes the groupers' rows give exactly the answers of the sequential query. |
| AboveAverage.AnsweredOnce | processors/grouper/grouper.py:157-171 | No route is answered twice, by one grouper or by two. |
| AboveAverage.GrouperReplay | commons/connection.py:79-85 | A grouper replayed newest batch first sends the same partial sum, and every route has the same fares above any mean up to order. |
| AboveAverage.MeanReplay | commons/connection.py:79-85 | A global mean replayed newest batch first replies the same. |
| TwoFastest.DosMasRapidos.Process | processors/dos_mas_rapidos/dos_mas_rapidos.py:15-44 | For every pair of airports there is a list exactly if a trip between them was seen, and it holds the two smallest durations of exactly those trips, in order. |
| TwoFastest.DosMasRapidos.AddToFastest | processors/dos_mas_rapidos/dos_mas_rapidos.py:26-38 | If the list held the two smallest durations of any multiset of trips, in order, the new list holds those of it and the new trip. |
| Routes.SameNameExactly | processors/dos_mas_rapidos/dos_mas_rapidos.py:40-44 | Two routes have one name if and only if they are equal, or one start continues the other behind a dash and the destinations match. |
| TwoFastest.FastestAreLeast | processors/dos_mas_rapidos/dos_mas_rapidos.py:15-38 | After any trips the list is sorted and its durations are the two smallest of the multiset seen, or all of them if fewer. |
| TwoFastest.FastestAreTrips | processors/dos_mas_rapidos/dos_mas_rapidos.py:26-38 | The list holds trips that were seen, none more often than it was seen. |
| TwoFastest.LeastUnique | processors/dos_mas_rapidos/dos_mas_rapidos.py:26-38 | The two smallest durations in order are determined by the multiset. |
| TwoFastest.ReplayKeepsDurations | commons/connection.py:79-85 | Replaying the saved batches newest first restores the same durations for every trajectory. |
| Durations.DurationRoundTrip | processors/dos_mas_rapidos/dos_mas_rapidos.py:52-69 | Days, hours and minutes, each present or left out, with decimals of any length, are read as 1440 d + 60 h + m (section 4.4.3.2 of ISO 8601:2004). |
| Durations.DecimalDuration | processors/dos_mas_rapidos/dos_mas_rapidos.py:52-69 | The same for numbers written in decimal with zero components left out. |
| Codec.IntRoundTrip | commons/message_utils.py:14-16 | A number in range is read back from its big-endian bytes. |
| Codec.BytesRoundTrip | commons/message_utils.py:43-45 | Every byte string is the encoding of exactly the number it reads as. |
| Codec.MessageBytesWriter.WriteInt | commons/message_utils.py:43-45 | Fails exactly when the value is out of range, and otherwise appends its bytes. |
| Codec.MessageBytesWriter.WriteMultipleInt | commons/message_utils.py:47-49 | Appends the bytes of all values in order, or fails when one is out of range. |
| Codec.MessageBytesReader.Read | commons/message_utils.py:6-12 | Takes the next bytes and moves on, or fails and stays where it is. |
| Codec.MessageBytesReader.ReadMultipleInt | commons/message_utils.py:18-22 | The loop reads as many numbers as asked for, in order, or fails. |
| Codec.MessageBytesReader.ReadMultipleObject | commons/message_utils.py:24-28 | The same for records of nine bytes. |
| Codec.TakesRecord | commons/log_searcher.py:14-23 | A record of nine bytes reads back as the record. |
| Codec.ToBytes | commons/message.py:47-53 | Succeeds exactly when every field is in range, with the type, the client and the fields in their order. |
| Codec.FromBytes | commons/message.py:21-45 | Reads what the layout says, and fails on a short buffer or an unknown type. |
| Codec.TakesRound | commons/message.py:190-329 | The body of a discovery or aggregation token with lists of any length reads back as the token, with nothing left. |
| Codec.MessageRoundTrip | commons/message.py:21-384 | Every message of the seven kinds with fields in range is decoded from its bytes, and the reader ends at the end of the buffer. |
| Codec.EncodingIsInjective | commons/message.py:47-53 | Distinct messages have distinct bytes. |
| Codec.EncodedIsLaidOut | commons/message.py:61-384 | Every field of every kind is at its byte position, with its width, most significant byte first, and the message is as long as its fields. |
| Codec.MostSignificantFirst | commons/message_utils.py:14-16 | The first of n bytes counts 256 to the power of n - 1. |
| Framing.FindInPrefix | commons/communication_buffer.py:30-35 | Bytes that arrive later do not move the first delimiter. |
| Framing.CommunicationBuffer.GetMessage | commons/communication_buffer.py:26-36 | Returns the bytes before the first delimiter of the stream and leaves what is behind it, however the stream is cut into reads; without a delimiter the peer has disconnected and the bytes stay in the buffer. |
| Framing.Receive | client/protocol_connection.py:155-182 | Reading until the peer disconnects or a frame does not parse hands out the results, each acknowledged, and the other messages, in the order of the stream, and keeps the unfinished tail. |
| Framing.FramedExactly | commons/communication_buffer.py:14-43 | A message is delimited only at its end if and only if it contains no delimiter and does not end in half of one. |
| Framing.FramesOfStream | commons/communication_buffer.py:26-43 | Every stream of such messages with an unfinished tail is read back exactly. |
| Framing.ReadsBackExactly | commons/communication_buffer.py:26-43 | The stream comes back as it was sent if and only if every message is of that kind. |
| Client.Transmitted | client/protocol_connection.py:85-112 | A transmission keeps the list of suspects equal to the ids of the data messages transmitted more than once, and an EOF carries exactly those before it. |
| Client.ProtocolConnection.ReceiveAck | client/protocol_connection.py:126-134 | Only an ACK clears the current message and counts an EOF. |
| Client.ProtocolConnection.SendOnce | client/protocol_connection.py:85-125 | Transmits the next message, taken from the queue only after the one before was acknowledged, or the same one again; it fails exactly when an EOF would have to be sent again. |
| Client.ProtocolConnection.Run | client/protocol_connection.py:85-107 | For any sequence of ACKs, other answers and disconnections, every EOF sent lists exactly the ids repeated before it, messages go in order, and no EOF goes twice. |

## Left out

- RabbitMQ, sockets, processes, signals, file locks and Docker supervision: only the abstract broker rules are kept (at least once, requeue on NACK, a redelivery is flagged).
- Torn writes inside one logger call, and the text of JSON.
- The stage machine has no duplicate catcher: with one the search is skipped (`commons/communication.py:612-618`), and the catcher's own guarantee is `ExactlyOnce.ExactlyOnceState`.
- The balancer's `load_balancer_send_multiply` is in the duplicate count and the handlers, but not in the stage machine: the code says that the correction is wrong when a batch does not reach every grouper (`commons/communication.py:536-539`).
- The chain of stages is for queue stages, where one replica runs the EOF callback; in topic mode every replica runs it.
- Pipeline.PassedIsHonest: messages that `finish_processing` returns are absent from what a stage passes on; no stage of the machine has them (see the hypotheses).
- Receivers.Receiver.EofCallback: stages that send no EOF, and the result EOF with its tag, are not modelled.
- Receivers.Receiver.SendMessages: the contents of the published data messages are not kept, only their number and their log lines.
- Receivers.Receiver.Callback: the processor's answers are a parameter; exceptions raised outside the processor (rows that do not parse, a broken connection while sending) are not modelled.
- ExactlyOnce.RecoverMemory: a stateful processor that raises on a row raises again when the row is replayed, and stops the restart (`commons/connection.py:82-85`); this is not modelled.
- Refinement.StepRefines: leaves out EOF callbacks that send, as the stage machine does.
- Receivers.Receiver.constructor: requires a sender; a receiver without one is modelled by the functions of `EofRing` only.
- The other sections of the client: announcing, results, and ACKs that belong to an earlier connection.
- Reading the payload of a message as UTF-8 and as rows: payloads are bytes.
- Digits other than ASCII ones, which `\d` and `int` accept too.
- The order of dictionary keys in what the balancer and the two-fastest processor send.
- Grouper results that were restored before a crash being sent again (`processors/grouper/grouper.py:98-103`).
- Replaying airports in reverse: the last write wins there, so the order matters when a code repeats.
- Filter, tagger, joiner, distances, three-or-more-stopovers, configuration and result merging: thin, or easy lemmas only.
- Floating-point rounding, `geodesic` and MD5; the hash is any function of the route.
