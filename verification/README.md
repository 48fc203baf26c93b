# AI gateway: verified models of the hard parts

Dafny models of the parts of the gateway where a mistake is easiest to make and hardest to see, with
proofs about every input, every run or every reachable state. `dafny verify dfyconfig.toml` checks
everything. Nothing here is the original program, and nothing here executes it.

Code that changes tables, dictionaries or counters step by step is a class or a loop, proved equal to a
function of the old state; the results are lemmas about those functions. SQL transactions and groups of
Redis commands are single steps, and time is an integer that the caller passes in.

* **Workflow engine.** `Conditions`, `ConditionText`, `ConditionMeaning` (edge conditions, their text and what
  every part of it stands for), `Dag` (scheduling queries), `RunStore` and `JobOutcomes` (the tables, the job handler
  and what it does to them), `Interleaving` (any number of workers, sweeps,
  crashes and cancellations, one transaction at a time), `Termination` (the weight that every job
  consumes), `SerialRuns` and `CompleteRuns` (jobs one at a time), `LoopingRuns` (the same for graphs with
  loops and cycles), `Overwriting` and `Reviving` (when a terminal status can still change), `Joins` (when a
  node can be queued twice), `Hazards` and `Branches` (runs that go wrong), `Redaction` and `Sanitizer`.
* **Memory.** `Tunnels`: two breadth-first searches, each against shortest distance and against each other.
* **Cache gateway.** `StreamTail` and `StreamText`, `Guardrails`, `ResponseCache` (both stores and the decisions
  around them), `CacheHistory` (whole runs of concurrent requests), `CacheDecisions` (what becomes of one request),
  `Replay`, `Autoroute`.
* **Others.** `JwkIntegers` (admin to identity), `Relay`, `RateLimiter`, `Scoring`; `Json`, `Basics`,
  `Alphabets` and `ColonKeys` are shared.

## What the proofs found

Each of these is a lemma with a concrete input or a condition that holds exactly.

* No terminal status of a run is final. A success is overwritten exactly while some job is still to be done
  or a failure to be reported. A cancellation is exactly while a worker that read the run before it has its
  outcome still to write, or is finished and would close the run now. A failure can only be, in any execution,
  while a worker has decided to close the run, or what can still run (by a row, a list, a choice to be made, or a
  worker whose row may be gone) includes every node not done and a terminal one; and it can be then, if the
  conditions of every node can be met together. None of this needs a lease to run out; a lease of 120 s under a
  job of up to 300 s only adds to it.
* The decision to close a run is truthful exactly when at that moment no job is left, be it a row, a worker's, or
  one to be enqueued. With two branches, one of which goes on, a run comes to be marked failed and then succeeded.
* While leases hold, a node can be queued twice exactly when some node has two predecessors neither of which leads
  to the other, which can be told from the graph. The join of two branches then runs twice, and its second row can
  undo the failure of the first. Without such a join every node is queued and finalised at most once, however the
  workers interleave.
* A sweep lets a row be finalised twice exactly when it gives the row back under a worker still to finalise it.
* The completion test looks at iteration 0 only: with loops a closing job leaves the queue empty exactly when
  no other row belongs to its own node or to one whose iteration 0 has succeeded.
* A job readies a node twice exactly when two firing edges share a target that is not blocked.
* A path that goes on behind a string, a number or a list reads an attribute of it: with outputs
  `{"items": []}` the condition `items.count` is true and `items.count == null` false
  (services/workflow-worker/app/dag.py:43-44). A missing segment gives null exactly when there is no such
  attribute, or the rest leads from it to null.
* A condition of blanks only is not taken for none: it asks for the value under the empty key.
* A drained run is closed exactly when its last node has no outgoing edge.
* The two tunnel searches see the same wings exactly when the depth is not negative.
* A JWK exponent survives exactly below 2^24, and is printed with a leading zero octet below 2^16, which
  section 2 of RFC 7518 does not allow.
* Sixty seconds admit at most one request less than twice the limit, and that is reached for every limit.
* The exact-hit branch that replays a response as a stream (services/cache/app/router.py:622-627) is never
  taken: a streaming request has no exact hit. A second request, if nothing but time passes in between and
  the stored answer is not a bare one, is a hit exactly while the time to live lasts, with the text filtered by
  the rules of the first request, not its own.
* The kept tail gives the usage of the whole stream exactly when the whole lines in it report any, or the
  broken line at its head and the stream before them report alike. Hence the last usage line, if longer than
  what is kept of it, is missed, and a mention of usage that begins at the cut within another line is counted.
* After five embedding failures in the life of a process every further one opens the circuit again, since
  no service calls `reset_circuit`.
* Scores computed from four separate reads can exceed one: at latency zero exactly when twice the hits exceed
  twice the requests plus the errors.
* Weights accepted at the creation of a season keep the composite in its range exactly when none is negative,
  which only the later update of weights forbids (services/league/app/routers/seasons.py:48-50).
* A relay agent that reconnects with its token is connected but cannot be invoked. A token is connected exactly
  when a socket has connected with it since the last of its sockets disconnected, so that the end of an older
  socket takes the connection of a younger one.
* `sanitize_string` is idempotent on all strings, truncated ones included.

## Where the code and its documentation differ

The models follow the code. The composite is documented as 0 to 1000 (services/league/app/scoring.py:64) but
reaches 1010 within the tolerance on the weights. The relay says that a disconnect unregisters the agent
(services/agent-relay/app/main.py:25), yet the registration stays and only the connection and the slug mapping
go. The rate limiter's comment speaks of SET NX (services/auth/app/rate_limiter.py:14-15) where the code
increments and then sets the expiry once.

## Model

| member | source | states |
|---|---|---|
| ConditionText.EvaluateRoundTrip | services/workflow-worker/app/dag.py:92-128 | Writing any path, operator and canonical literal, with any blanks between them, and evaluating it gives the comparison of what the path leads to with that literal |
| ConditionText.ClauseRoundTrip | services/workflow-worker/app/dag.py:60-61 | The clause pattern splits such a text into its path, operator and literal, whatever the operator and the blanks |
| ConditionText.PrefixedRoundTrip | services/workflow-worker/app/dag.py:109-113 | Behind an added `outputs.` the same holds for every path, one that starts with the prefix included |
| ConditionText.PrefixIsNeutral | services/workflow-worker/app/dag.py:109-113 | The prefix changes the verdict of no stripped condition that does not already start with it |
| ConditionText.BarePathMeaning | services/workflow-worker/app/dag.py:114-118 | A condition that is only a path asks for the truth of its value, whatever attribute lookup gives |
| ConditionText.LiteralRoundTrip | services/workflow-worker/app/dag.py:64-84 | Integers, booleans, null and newline-free quoted strings are read back from their text |
| ConditionText.OperatorsMeaning | services/workflow-worker/app/dag.py:50-57 | Ordered values stand in exactly one of the three relations and the six operators agree with it; unordered ones satisfy no inequality |
| ConditionText.ResolvePath | services/workflow-worker/app/dag.py:39-47 | The loop over the segments yields the value at the path through dictionaries and attributes, null as soon as neither is there; through dictionaries within dictionaries the value of the first entry of each name, at whatever position, null if the last name is missing |
| Json.GetFinds | services/workflow-worker/app/dag.py:42-43 | A lookup finds the value of the first entry with the key, wherever it stands |
| Json.GetMisses | services/workflow-worker/app/dag.py:42-43 | It gives null when no entry has the key |
| Json.TruthyMeaning | services/workflow-worker/app/dag.py:118 | False are null, false, zero of either kind, the empty string, list and dictionary, and foreign objects that say so; all else is true |
| ConditionText.SplitMeaning | services/workflow-worker/app/dag.py:41 | The segments of a path are the one list of dot-free names that the dots join to it |
| ConditionText.NestedVerdict | services/workflow-worker/app/dag.py:92-128 | A written comparison through nested dictionaries compares the value the names lead to, or null if the last is missing |
| ConditionText.NestedTruth | services/workflow-worker/app/dag.py:114-118 | And a path alone, prefixed or not, is met exactly when that value is none of those Python takes for false |
| ConditionMeaning.ClauseIff | services/workflow-worker/app/dag.py:60-61 | A text is read as path, operator and literal exactly when it consists of them with blanks between, which no text does in two ways |
| ConditionMeaning.VerdictMeaning | services/workflow-worker/app/dag.py:92-128 | Any text without blanks around it: a clause compares, everything else is a path whose value is to be true |
| ConditionMeaning.ComparisonVerdict | services/workflow-worker/app/dag.py:92-128 | Through nested dictionaries and with any literal text whatever: the value reached is compared with what the literal is read as |
| ConditionMeaning.NumberVerdict | services/workflow-worker/app/dag.py:50-57 | With numbers on both sides each operator, told by its symbol, is the relation of numbers it denotes |
| ConditionMeaning.DecimalVerdict | services/workflow-worker/app/dag.py:23-26 | So with decimal fractions of any digits and sign, as in the documented score threshold |
| ConditionMeaning.BlanksAround | services/workflow-worker/app/dag.py:108 | Blanks around a condition play no part in its verdict |
| ConditionMeaning.NoText | services/workflow-worker/app/dag.py:105-118 | An empty condition is met by all outputs; one of blanks only asks for the truth of the value under the empty key |
| ConditionMeaning.IntegerIsRead | services/workflow-worker/app/dag.py:76-77 | Whole numbers are read with any sign, leading zeros and single underscores between digits |
| ConditionMeaning.DecimalIsRead | services/workflow-worker/app/dag.py:80-81 | Decimal fractions likewise, with digits on one side of the dot at least |
| ConditionMeaning.ScientificIsRead | services/workflow-worker/app/dag.py:80-81 | And with an exponent of either sign, in the digits before it or behind a dot |
| ConditionMeaning.QuotedIsRead | services/workflow-worker/app/dag.py:66-69 | Text in quotes of either kind is what stands between them, and a lone quote no text |
| ConditionMeaning.KeywordsIff | services/workflow-worker/app/dag.py:70-75 | Truth values and null come exactly from their keywords, in small letters, capitals or any mixture |
| ConditionMeaning.OtherText | services/workflow-worker/app/dag.py:76-84 | Numbers come from numerals only, and ASCII text that is no numeral, keyword or quotation is taken as it stands |
| ConditionMeaning.NumbersCompare | services/workflow-worker/app/dag.py:50-57 | Integers, decimals and truth values compare as the numbers they count as |
| ConditionMeaning.StringsCompare | services/workflow-worker/app/dag.py:50-57 | Strings compare by their first difference, a shorter one coming before what it begins |
| ConditionMeaning.OthersCompare | services/workflow-worker/app/dag.py:124-128 | Other kinds, and different ones, are equal only if the same and never ordered |
| ConditionMeaning.PathCharIff | services/workflow-worker/app/dag.py:61 | A path is made of letters, digits, underscores and dots, one by one |
| ConditionText.NullOnMissingIff | services/workflow-worker/app/dag.py:39-47 | A path that leaves the dictionaries gives null exactly when the value there has no attribute of that name, or the rest leads from it to null |
| ConditionText.AttributeIsRead | services/workflow-worker/app/dag.py:43-44 | The input on which it fails: an attribute of a string, number or list makes a condition on a missing key true |
| ConditionText.OrderIsTransitive | services/workflow-worker/app/dag.py:50-57 | The order the operators use is transitive on numbers and on strings |
| Dag.ConditionalSuccessors | services/workflow-worker/app/dag.py:161-170 | The loop lists the targets of the firing edges in edge order |
| Dag.FindReadySuccessors | services/workflow-worker/app/dag.py:184-202 | The loop lists the firing targets that are unblocked, in order |
| Dag.SuccessorsMeaning | services/workflow-worker/app/dag.py:156-158 | A node is listed as a successor exactly when an edge leads to it |
| Dag.PredecessorsMeaning | services/workflow-worker/app/dag.py:173-174 | A node is listed as a predecessor exactly when an edge leads from it |
| Dag.ReadyMeaning | services/workflow-worker/app/dag.py:184-202 | Ready are exactly the targets of firing edges all of whose predecessors have succeeded |
| Dag.ReadyInOrder | services/workflow-worker/app/dag.py:161-202 | Ready are the targets of exactly the edges of the finished node whose condition is met and all of whose targets' predecessors have succeeded, in the order of the edges |
| Dag.FiringJoins | services/workflow-worker/app/dag.py:161-170 | Firing targets are listed edge by edge, in order |
| Dag.FindNodeMeaning | services/workflow-worker/app/dag.py:177-181 | The node that is looked up is the first of its name, and there is one exactly when some node has the name |
| Dag.TerminalIff | services/workflow-worker/app/dag.py:205-207 | A node is terminal exactly when no edge leaves it |
| Dag.ReadyDistinct | services/workflow-worker/app/dag.py:184-202 | Without parallel edges no node is listed as ready twice |
| Dag.ReadyDistinctIff | services/workflow-worker/app/dag.py:184-202 | No node is listed twice exactly when no two firing edges share a target that is not blocked |
| RunStore.Tables.ClaimOne | services/workflow-worker/app/main.py:77-103 | Claims a claimable row of least available_at if there is one, and changes nothing else |
| RunStore.Tables.SweepStale | services/workflow-worker/app/main.py:269-292 | Releases exactly the rows whose lease has expired |
| RunStore.LeaseReleasedIff | services/workflow-worker/app/main.py:77-292 | A claimed row is claimable again after a sweep exactly when its lease has expired, and other live leases are left alone |
| RunStore.Tables.MarkNodeRunning | services/workflow-worker/app/main.py:134-152 | Marks an existing node row running, and a pending run |
| RunStore.Tables.FinalizeNode | services/workflow-worker/app/main.py:106-131 | Sets the status of an existing node row and deletes the queue row |
| RunStore.Tables.EnqueueNode | services/workflow-worker/app/main.py:182-214 | Adds a queue row always, and a pending node row unless there is one |
| RunStore.Tables.CancelRun | services/admin/app/routers/workflows.py:566-588 | Cancels a pending or running run only |
| RunStore.Tables.HandleJob | services/workflow-worker/app/main.py:317-529 | The whole handler: skip, reject, fail, loop, schedule or close; JobOutcomes tells each of these from the tables, the graph and the outputs alone |
| JobOutcomes.NextIterationIff | services/workflow-worker/app/dag.py:131-148 | A job enqueues the next iteration of its node exactly when it succeeds, the loop is on and has room (ten iterations without a limit), and the first `_loop_continue` in its outputs is none of null, false, zero and the empty values |
| JobOutcomes.LoopedJob | services/workflow-worker/app/main.py:505-509 | Then the tables gain just that row, and nothing else is scheduled |
| JobOutcomes.ScheduledJob | services/workflow-worker/app/main.py:511-529 | Otherwise rows for the targets that have become ready are added in the order of the edges; without any the run is closed exactly when no edge leaves the node and every declared node that was started has succeeded |
| JobOutcomes.FailedJob | services/workflow-worker/app/main.py:341-475 | An undeclared node, an unknown agent and any failure fail the node row, if there is one, and the run, and change nothing else |
| JobOutcomes.CancelledJob | services/workflow-worker/app/main.py:335-340 | The job of a cancelled run is dropped without a trace |
| JobOutcomes.NoLaterIteration | services/workflow-worker/app/dag.py:131-148 | In every interleaving in which no outputs hold a true `_loop_continue` no row is of a later iteration than the first, whatever loops are declared |
| JobOutcomes.IterationsHaveRoom | services/workflow-worker/app/dag.py:131-148 | In every interleaving a row of a later iteration is one its loop had room for |
| Interleaving.OrderedAlways | services/workflow-worker/app/main.py:77-529 | Invariant of every interleaving: whoever has a row at iteration 0 has all predecessors finalised succeeded, and what the snapshots say is history |
| Interleaving.AncestorsFirst | services/workflow-worker/app/dag.py:184-202 | In every interleaving a node with any row has all its ancestors finalised succeeded before |
| Interleaving.IterationsBounded | services/workflow-worker/app/dag.py:131-148 | In every interleaving no row's iteration exceeds the last one its loop allows |
| Termination.SuccessorsWeighLess | services/workflow-worker/app/main.py:511-517 | On an acyclic graph the weight of a row exceeds that of all the successors its completion may enqueue |
| Termination.RowsAreExclusive | services/workflow-worker/app/main.py:77-103 | While no held row is swept, workers never share a row and each row is finalised at most once |
| Termination.JobsBounded | services/workflow-worker/app/main.py:505-515 | However workers interleave or crash, jobs completed plus the weight left never exceed the entry's weight |
| Termination.CompletionFalls | services/workflow-worker/app/main.py:505-515 | Every completed job strictly lowers the weight left |
| SerialRuns.PlayIsScheduled | services/workflow-worker/app/main.py:317-529 | Handling a job alone is one schedule of the interleaved system with the same tables at its end |
| SerialRuns.SerialKeeps | services/workflow-worker/app/main.py:224-251 | Invariant of serial runs: one row per pending node, and the run's status tells the truth about the rows |
| SerialRuns.SucceededMeansDone | services/workflow-worker/app/main.py:518-525 | A run marked succeeded has no queue row, and every started node has succeeded |
| SerialRuns.OutcomesExclude | services/workflow-worker/app/main.py:224-251 | After a node has failed the run stays failed; after success nothing changes |
| SerialRuns.DrainedRunClosesIff | services/workflow-worker/app/main.py:514-525 | The job that empties the queue closes the run exactly when its node is terminal |
| LoopingRuns.ClosedQueueIff | services/workflow-worker/app/main.py:505-525 | Serial runs of any graph, loops and cycles included: a closing job leaves the queue empty exactly when no other row is of its own node or of one whose iteration 0 has succeeded |
| LoopingRuns.ClosedIsTrueIff | services/workflow-worker/app/main.py:254-261 | And the success is true exactly when, besides, no later iteration has failed |
| CompleteRuns.OnceInTopologicalOrder | services/workflow-worker/app/main.py:511-529 | Unconditional acyclic graphs, every job succeeding: no node is handled twice, and each after all its predecessors |
| CompleteRuns.DrainedRunIsComplete | services/workflow-worker/app/main.py:511-529 | When the queue drains every declared node has been handled and succeeded, and the run is marked succeeded |
| CompleteRuns.ProgressUntilDrained | services/workflow-worker/app/main.py:77-103 | Until then there is always a row that can be claimed and handled |
| Overwriting.SuccessOverwrittenIff | services/workflow-worker/app/main.py:224-251 | Any graph, any state: a succeeded run can become anything else exactly while a job is still to be done or a failure to be reported |
| Overwriting.CancelOverwrittenIff | services/workflow-worker/app/main.py:335-529 | Any graph, any state: a cancelled run can become anything else exactly when some worker is past reading it with its outcome unwritten, or is finished and would close it now |
| Overwriting.FailureBuriedIff | services/workflow-worker/app/main.py:511-529 | A worker that has decided to close can bury a failure reported after, the failed row still there, exactly when some job was still to be done |
| Reviving.ClosingIsTruthfulIff | services/workflow-worker/app/main.py:511-525 | All interleavings of well-formed graphs: the decision to close is truthful exactly when no job is left; otherwise a failure can be reported and overwritten |
| Reviving.LeasedClosingIsTruthfulIff | services/workflow-worker/app/main.py:511-525 | While leases hold: exactly when no row is queued and no worker has one to enqueue |
| Reviving.NeverRevived | services/workflow-worker/app/main.py:224-529 | All interleavings of well-formed graphs, any conditions, leases lost or not: a run never comes to be marked succeeded, and a failed one stays failed, unless a worker has decided to close it, or what can still run includes every node not done and a terminal one |
| Reviving.RevivableIff | services/workflow-worker/app/main.py:224-529 | The same, and for conditions that can be met together exactly then it can come to be marked succeeded |
| Reviving.FailedStaysIff | services/workflow-worker/app/main.py:224-251 | A failed run stays failed in every continuation exactly when neither is the case |
| Overwriting.FinalisedTwiceIff | services/workflow-worker/app/main.py:269-292 | While leases have held, a sweep lets a row be finalised twice exactly if the row is stale and some worker has still to finalise it |
| Joins.QueuedTwiceIff | services/workflow-worker/app/main.py:182-517 | Well-formed graphs whose entry leads to every node, conditions that can be met together: some execution in which leases hold queues a node twice exactly when some node has two predecessors neither of which leads to the other |
| Joins.NodesRunOnce | services/workflow-worker/app/main.py:182-517 | Without such a node, any conditions, all interleavings in which leases hold: no node is queued twice or finalised twice, and none has come up while an ancestor has still to schedule |
| Overwriting.FailureOverwrittenIff | services/workflow-worker/app/main.py:224-251 | Any graph and conditions: a failed run with a failed node that cannot run again stays failed exactly when no worker has decided to close it |
| Overwriting.FailureUndone | services/workflow-worker/app/main.py:511-525 | Any graph and conditions: if every node not done has a row of its own and a terminal one has, the run can come to succeed |
| Branches.FanOutBuriesFailure | services/workflow-worker/app/main.py:513-525 | A run of a well-formed graph, without sweep, crash or cancellation and claiming earliest rows only, that is marked failed and then succeeded, the failed node row still there |
| Branches.JoinIsQueuedTwice | services/workflow-worker/app/main.py:513-517 | Such a run in which two branches that finish together queue their join twice without parallel edges |
| Branches.JoinUndoesFailure | services/workflow-worker/app/main.py:513-525 | And one in which the job of the first row of the join fails, the run is marked failed, and the job of the second has it marked succeeded |
| Hazards.ReclaimOverturnsFailure | services/workflow-worker/app/config.py:49 | A run in which an expired lease lets a failed run become succeeded, with its node finalised twice; as the condition for it requires, the node can still run when the run is marked failed, though its row is gone |
| Hazards.CancelIsOverwritten | services/workflow-worker/app/main.py:335-339 | A run in which a cancelled run becomes succeeded |
| Hazards.LoopClosesEarly | services/workflow-worker/app/main.py:254-261 | A run closed as succeeded while a loop iteration is queued, which then fails |
| Hazards.ParallelEdgesEnqueueTwice | services/workflow-worker/app/dag.py:196-202 | Parallel edges make their target ready twice |
| Redaction.SubIsClean | services/workflow-worker/app/main.py:574-577 | After a substitution with an inert mask no match is left, not even across a replacement |
| Redaction.SubAtFirstMatch | services/workflow-worker/app/main.py:574-577 | Substitution keeps what precedes the first match and replaces that match at its greatest length |
| Redaction.RedactedIsClean | services/workflow-worker/app/main.py:570-585 | No string leaf of redacted outputs contains a run key |
| Redaction.CleanIff | services/workflow-worker/app/main.py:574 | Clean means that at no place the prefix and twenty characters of the class stand, told one by one; for mentions the at sign and one |
| Redaction.KeyIsMasked | services/workflow-worker/app/main.py:570-585 | A run key with all its characters becomes the mask, what stands before is kept and the rest scanned on |
| Redaction.RedactionMasks | services/workflow-worker/app/main.py:576-583 | Every string leaf is rewritten so, and keys, order, shape and other leaves are kept |
| Redaction.RedactionIsConservative | services/workflow-worker/app/main.py:570-585 | Outputs without a run key are unchanged |
| Sanitizer.SanitizedIsHarmless | services/workflow-worker/app/sanitizer.py:24-39 | No sanitized string holds a mention or an angle bracket, escaped and cut ones included, and its length is bounded |
| Sanitizer.EscapeMeaning | services/workflow-worker/app/sanitizer.py:29 | Each angle bracket becomes its own entity and every other character stays |
| Sanitizer.SanitizeMeaning | services/workflow-worker/app/sanitizer.py:24-39 | A string without a mention is escaped and, past fifty thousand characters, cut there and marked as cut |
| Sanitizer.MentionsGoFirst | services/workflow-worker/app/sanitizer.py:26-29 | A mention is masked before brackets are escaped |
| Sanitizer.SanitizeStringIdempotent | services/workflow-worker/app/sanitizer.py:24-39 | Sanitizing twice is sanitizing once, for all strings |
| Sanitizer.KeyCount.SanitizeValue | services/workflow-worker/app/sanitizer.py:42-61 | The recursion with the shared counter returns and counts what the function of the old count says |
| Sanitizer.KeepsFirstHundred | services/workflow-worker/app/sanitizer.py:42-61 | Of any nested value exactly the first hundred dictionary keys in pre-order are kept |
| Sanitizer.SanitizeTrims | services/workflow-worker/app/sanitizer.py:42-61 | Of what is kept list lengths and scalars are preserved and only trailing entries are dropped |
| Sanitizer.SanitizedInputsAreSafe | services/workflow-worker/app/sanitizer.py:64-79 | Every result holds at most a hundred keys at the top, all of the input, with harmless strings, and an oversized one nothing nested |
| Tunnels.NeighboursMeaning | services/memory/app/store.py:453-464 | The neighbours found are exactly the wings a tunnel leads to, against its direction only if bidirectional |
| Tunnels.NeighboursInOrder | services/memory/app/store.py:453-464 | One neighbour for each tunnel of the developer that starts at the wing, or is bidirectional and ends there, in the order of the rows |
| Tunnels.FollowTunnels | services/memory/app/main.py:508-533 | Reports exactly the wings at distance 1 to the bound, each once, at its shortest distance, in nondecreasing order, with the tag of a tunnel that brought it in |
| Tunnels.Traverse | services/memory/app/main.py:544-564 | Terminates although wings are queued repeatedly; its keys are exactly the wings within the bound, each with all its neighbours |
| Tunnels.SearchesAgreeIff | services/memory/app/main.py:508-564 | With the same bound both searches see the same wings exactly when it is not negative |
| Tunnels.TraversedAreReached | services/memory/app/main.py:544-564 | Its keys are exactly the wings some walk within the bound leads to, shortest or not |
| Tunnels.FollowedIsDetermined | services/memory/app/main.py:508-533 | Two answers to the same question agree on wings and depths |
| StreamTail.TrackedStream | services/cache/app/router.py:68-79 | Passes every chunk on and reads the usage from the tail |
| StreamTail.TailBounds | services/cache/app/router.py:68-76 | For every chunking the tail is a suffix of the stream, at least 4096 bytes of a longer one, at most 8192, all of a shorter one |
| StreamText.TailLength | services/cache/app/router.py:68-76 | A chunk that takes the tail past 8192 bytes leaves the last 4096, every other is kept whole |
| StreamText.CharIsDecoded | services/cache/app/router.py:28 | Where the UTF-8 form of a code point begins it is decoded |
| StreamText.OtherByteIsDropped | services/cache/app/router.py:28 | And a byte at which none begins is dropped, overlong forms and surrogates included |
| StreamText.LineMeaning | services/cache/app/router.py:29 | Lines end at each of ten characters; a carriage return takes a line feed along |
| StreamText.DataLines | services/cache/app/router.py:30-32 | Lines that begin with `data: ` are read behind it, and no others |
| StreamText.LastReportCounts | services/cache/app/router.py:29-44 | The usage is that of the last line that reports any |
| StreamTail.TailAgreesIff | services/cache/app/router.py:26-76 | Cut at any line start within the tail, tail and stream give the same usage exactly when the lines behind report some, or the broken head and the stream before report alike |
| StreamTail.TailUsageIsStreamUsage | services/cache/app/router.py:26-76 | When the last lines, from any line start on, report usage and fit the bytes kept, the tail gives the usage of the whole stream, for every chunking |
| StreamTail.ShortStreamUsage | services/cache/app/router.py:26-76 | A stream of at most 8192 bytes is accounted for exactly |
| StreamTail.LineCutByTail | services/cache/app/router.py:26-76 | Any chunks, lines before and silent lines behind: when the tail begins within a line it gives what is left of that line, where the stream gives the line or what precedes it |
| StreamTail.LongUsageLineIsMissed | services/cache/app/router.py:73-76 | So any last usage line longer than what is kept of it is lost, unless the prefix happens to stand where the tail begins |
| StreamTail.MentionedUsageIsCounted | services/cache/app/router.py:26-76 | And a mention of usage within a last line that reports none is counted when it begins where the tail does |
| StreamTail.ParseUsage | services/cache/app/router.py:26-44 | The loop from the last line finds the last line that reports anything |
| StreamTail.DecodeRoundTrip | services/cache/app/router.py:28 | Well-formed UTF-8 is decoded without loss |
| StreamTail.DecodeBehind | services/cache/app/router.py:28 | Decoding may be cut behind any ASCII byte, malformed input included |
| StreamTail.DecodeBefore | services/cache/app/router.py:28 | Or before any byte that continues no character |
| StreamTail.SuffixDecode | services/cache/app/router.py:28 | Wherever bytes are cut off in front, what is left decodes to the end of the text |
| StreamTail.LinesRoundTrip | services/cache/app/router.py:29 | Lines joined by newlines are split into the same lines |
| Guardrails.EvaluateGuardrails | services/cache/app/guardrails.py:31-101 | The loop over the rules, with its early end at a blocking one and its cap; NoRules, OneMoreRule and BlockIsFinal tell its outcome rule by rule |
| Guardrails.OneMoreRule | services/cache/app/guardrails.py:65-99 | If no rule before has blocked, one more counts exactly when it is enabled, is for the direction or both, and a valid pattern of it is found in what the others left; then it is reported, and blocks, or rewrites that text by each valid pattern in turn, or leaves it |
| Guardrails.SingleRule | services/cache/app/guardrails.py:50-98 | A rule that is found takes effect on input exactly when enabled and for input or both, on output likewise; one pattern of a redacting rule is substituted by the mask |
| Guardrails.NoRules | services/cache/app/guardrails.py:101 | Without rules a text passes as it is |
| Guardrails.BlockIsFinal | services/cache/app/guardrails.py:92-94 | No rule behind a blocking one has any effect |
| Guardrails.PastTheCap | services/cache/app/guardrails.py:59-63 | Text past the cap neither blocks nor is reported nor changes |
| Guardrails.UntouchedIff | services/cache/app/guardrails.py:65-101 | Nothing is reported exactly when no applicable rule matches, and then the text is unchanged |
| ResponseCache.Stores.GetExact | services/cache/app/exact.py:13-17 | Returns the unexpired entry under the key of namespace and body |
| ResponseCache.Stores.SetExact | services/cache/app/exact.py:20-23 | Stores under that key only, for the time to live |
| ResponseCache.Stores.GetSemantic | services/cache/app/semantic.py:64-109 | Returns the nearest live row of the namespace if near enough and the circuit is closed |
| ResponseCache.Stores.SetSemantic | services/cache/app/semantic.py:112-139 | Appends a row that lives at least a second, unless the circuit is open |
| ResponseCache.Stores.RecordEmbeddingFailure | services/cache/app/semantic.py:25-33 | Counts, and from the fifth failure on opens the circuit for the cooldown |
| ResponseCache.CircuitOpenIff | services/cache/app/semantic.py:25-37 | After failures at any times the circuit is open exactly when there were five and the cooldown since the last has not passed |
| ResponseCache.NearestMeaning | services/cache/app/semantic.py:84-96 | The row found is live, in the namespace, and no such row is nearer; none exactly when there is none |
| ResponseCache.FilterResponse | services/cache/app/router.py:776-804 | Each choice that a named rule blocks becomes the notice with that name, any other text what the redacting rules leave of it; choices without text and the rest stay; withheld exactly when some choice is blocked |
| CacheDecisions.RefusedIff | services/cache/app/router.py:497-562 | A request is turned away exactly when a named rule blocks its prompt, or it asks for a stream and some enabled rule blocks or redacts output |
| CacheDecisions.BypassesIff | services/cache/app/router.py:245-251 | It looks in no store exactly when the team has opted out, the user's messages exceed the limit, or the redacted prompt holds personal data |
| CacheDecisions.PromptTexts | services/cache/app/router.py:227-241 | The prompt's texts: plain contents and text parts, one by one in order, and nothing else |
| CacheDecisions.PromptJoins | services/cache/app/router.py:242 | The prompt is these texts with a blank between them |
| CacheDecisions.RedactedMeaning | services/cache/app/router.py:526-545 | Every text of every message is rewritten by the redacting input rules and nothing else of the request changes |
| CacheDecisions.RedactRulesJoin | services/cache/app/router.py:527-531 | Those rules are the redacting ones for input or both, in order |
| CacheDecisions.DeliveredMeaning | services/cache/app/router.py:776-806 | A miss of status 200 delivers the filtered reply, and it may be stored exactly when nothing is withheld and the request looks in the stores |
| CacheDecisions.ExactLookup | services/cache/app/router.py:588-628 | An exact lookup answers with the entry under the key, unless it has expired or is bare |
| CacheDecisions.SemanticLookup | services/cache/app/router.py:633-684 | A semantic lookup answers with a nearest live row of team and project if it is near enough and not bare and the circuit is closed |
| CacheDecisions.FailedLookups | services/cache/app/router.py:629-687 | A store that fails is a miss, and on the semantic path a counted failure |
| CacheDecisions.AnswerIsDelivered | services/cache/app/router.py:760-815 | The reply is recorded, streamed or not, and goes on to the stores exactly when it may be stored |
| CacheDecisions.AnswerIsStored | services/cache/app/router.py:806-830 | It goes into the exact store for the time to live and, with an embedding and a closed circuit, into the semantic one; a store that fails is passed over |
| CacheHistory.HitsAreExplained | services/cache/app/router.py:581-830 | In every run of concurrent requests, failures, evictions and expiries each hit repeats what an earlier non-streamed, status 200, unbypassed, unwithheld miss delivered; a semantic one of the same team and project, near enough |
| CacheHistory.ExactHitMeaning | services/cache/app/router.py:585-619 | An exact hit repeats a miss of the same namespace and redacted body, so a streaming request never gets one |
| CacheHistory.KeysEqualIff | services/cache/app/exact.py:7-10 | Keys are equal exactly when namespace strings and digests are |
| CacheHistory.NamespacesEqualIff | services/cache/app/router.py:585 | Namespaces of teams without a colon are equal exactly when team and project are |
| CacheHistory.RunKeepsInv | services/cache/app/router.py:581-830 | In every run both stores, and the requests about to store, hold nothing but what earlier misses delivered |
| CacheHistory.AnswersFit | services/cache/app/router.py:497-830 | In every run exactly the requests to be refused are, those that bypass get no answer from a store, and a miss is streamed just when asked |
| CacheHistory.MissIsStored | services/cache/app/router.py:806-815 | Serving a storable miss leaves its delivery in the exact store under the key of its redacted body |
| CacheHistory.SecondRequestHitsIff | services/cache/app/router.py:587-815 | After a miss whose stored answer is not bare, nothing but time passing, a second request with the same key gets the first one's answer exactly while the time to live lasts |
| Replay.ReplayAsSse | services/cache/app/router.py:143-199 | Emits the chunks in order: role, deltas per choice, finish, sentinel |
| Replay.ReplayIsHeard | services/cache/app/router.py:143-199 | A client that joins the deltas hears the cached text and tool calls of every choice |
| Replay.StreamShape | services/cache/app/router.py:143-199 | The stream is the role, deltas that say something in the order of the choices, text before calls, then the first choice's reason or "stop" with the usage unless empty, and the sentinel |
| Autoroute.Router.RecordRequest | services/cache/app/autoroute.py:40-68 | Appends one event to the log the buckets stand for; SumsCountEvents tells what is read from them |
| Autoroute.BucketsRefineLog | services/cache/app/autoroute.py:71-78 | At every instant the five buckets sum to the events of those minutes: none has expired |
| Autoroute.SumsCountEvents | services/cache/app/autoroute.py:40-78 | The sums read are the number of requests of the model in those minutes, of those that hit, of those that failed, and the sum of their latencies |
| Autoroute.WorthMeaning | services/cache/app/autoroute.py:106-129 | The score is one half without requests, and otherwise 0.4 of the hit rate, 0.4 for speed and 0.2 of the share that did not fail |
| Autoroute.BucketLives | services/cache/app/autoroute.py:52-54 | A bucket is kept for six minutes after the last request of its minute |
| Autoroute.TotalBounds | services/cache/app/autoroute.py:40-68 | Over any minutes hits and errors never exceed requests |
| Autoroute.ScoreBounds | services/cache/app/autoroute.py:117-129 | A score lies above 0 and at most at 1 |
| Autoroute.ScoreAtMostOneIff | services/cache/app/autoroute.py:117-129 | Of any four numbers read the score is at most one exactly under one inequality, at latency zero 2 hits <= 2 requests + errors |
| Autoroute.TornScoreIff | services/cache/app/autoroute.py:108-129 | The same for four reads at times and positions of the log of their own; reads of one position at one time meet it |
| Autoroute.ScoreMonotone | services/cache/app/autoroute.py:117-129 | It rises with hits and falls with errors and latency |
| Autoroute.Router.GetModelScores | services/cache/app/autoroute.py:81-129 | Every model, tracked or not, is scored on the evidence of the log |
| Autoroute.Router.SelectBestModel | services/cache/app/autoroute.py:132-147 | The first candidate of greatest worth |
| Autoroute.Router.SelectModelForIntent | services/cache/app/autoroute.py:150-170 | A demanding intent gets a complex candidate if there is one, and of those allowed the best |
| Autoroute.TornReadExceedsOne | services/cache/app/autoroute.py:108-129 | An instance: a request recorded between the reads lets a score exceed one |
| JwkIntegers.KeyRoundTripIff | services/admin/app/identity_signing.py:206-218 | A key is printed exactly when its exponent is below 2^24, and then both numbers are parsed back |
| JwkIntegers.IntegerRoundTrip | services/identity/app/main.py:158-161 | Whatever integer is printed in so many octets is parsed back |
| JwkIntegers.PaddingRestored | services/identity/app/main.py:158-161 | The parser adds exactly the fill characters the printer stripped |
| JwkIntegers.Base64RoundTrip | services/admin/app/identity_signing.py:206-207 | Decoding undoes encoding for all octet strings |
| JwkIntegers.AlphabetIs | services/admin/app/identity_signing.py:206-207 | The alphabet is that of section 5 of RFC 4648 |
| JwkIntegers.GroupMeaning | services/admin/app/identity_signing.py:206-207 | Three octets are four digits to the base 64, missing bits are zero and missing digits fill characters |
| JwkIntegers.EncodeHead | services/admin/app/identity_signing.py:206-207 | Groups of three octets are encoded one by one |
| JwkIntegers.OctetsMean | services/identity/app/main.py:158-161 | Octets are digits to the base 256, the most significant first |
| JwkIntegers.NoFillIsPrinted | services/admin/app/identity_signing.py:206-207 | What is printed holds characters of the alphabet only |
| JwkIntegers.OddLengthIsRefused | services/identity/app/main.py:158-161 | Text one longer than a multiple of four is refused |
| JwkIntegers.ByteLengthIsMinimal | services/admin/app/identity_signing.py:210 | The octets computed from bit_length hold the modulus, and no fewer do |
| JwkIntegers.MinimalOctetsIff | services/admin/app/identity_signing.py:211-218 | The modulus never has a leading zero octet, the exponent exactly below 2^16 |
| Relay.Server.Register | services/agent-relay/app/main.py:167-177 | Adds the agent and points its slug to the new token |
| Relay.Server.Accept | services/agent-relay/app/main.py:190-200 | Connects a registered token only |
| Relay.Server.Leave | services/agent-relay/app/main.py:229-233 | Drops the connection, and the slug only if it still points to this token |
| Relay.Server.Receive | services/agent-relay/app/main.py:213-223 | Settles a waiting future and no other |
| Relay.Server.Invoke | services/agent-relay/app/main.py:246-264 | Sends to the connection of the slug's token, or fails |
| Relay.InvocableIff | services/agent-relay/app/main.py:167-251 | In every run a slug can be invoked exactly when its latest registration has connected and none of its sockets has disconnected; the invocation goes to an open socket of it |
| Relay.MapsConsistent | services/agent-relay/app/main.py:167-233 | In every run connected tokens are registered and slugs point to their latest registration |
| Relay.LateDisconnect | services/agent-relay/app/main.py:229-233 | A socket's end removes a slug mapping exactly when that points to its own token |
| Relay.FirstToSettleWins | services/agent-relay/app/main.py:213-286 | In every run the pending ids are the invocations in flight, each settled once by the first reply or its timeout, and the caller is told just that |
| Relay.VerdictMeaning | services/agent-relay/app/main.py:213-286 | The verdict is that of the first event in the run that could settle the invocation |
| Relay.VerdictIsFinal | services/agent-relay/app/main.py:213-286 | Once an invocation is settled nothing that follows settles it again |
| Relay.EndedIff | services/agent-relay/app/main.py:246-286 | An invocation that was sent has ended in a given way exactly when an event of the run ended it so: a failure, or its resumption with the reply or timeout that settled it |
| Relay.InvokeMeaning | services/agent-relay/app/main.py:246-264 | A fresh invocation goes to the connection of the slug's token, or is refused at once |
| Relay.ReconnectIsNotInvocable | services/agent-relay/app/main.py:190-233 | A run in which a reconnected agent cannot be invoked |
| Relay.ConnectedIff | services/agent-relay/app/main.py:190-233 | In every run a token is connected, to a given socket, exactly when that was the last to connect with it and no socket of the token has disconnected since |
| Relay.OlderSocketTakesYounger | services/agent-relay/app/main.py:229-230 | The end of an older socket removes a younger one's connection |
| RateLimiter.Limiter.Check | services/auth/app/rate_limiter.py:9-28 | Counts every request, refused ones included, sets the expiry once, admits up to the limit |
| RateLimiter.WindowAdmitsItsFirst | services/auth/app/rate_limiter.py:9-28 | In every run of many keys a request is admitted exactly when it is among the first of its window |
| RateLimiter.CounterMeaning | services/auth/app/rate_limiter.py:13-21 | The stored counter is the position in the window and its expiry the window's end |
| RateLimiter.StartsApart | services/auth/app/rate_limiter.py:13-21 | Windows start at least sixty seconds apart, however many requests are refused |
| RateLimiter.AdmissionsBounded | services/auth/app/rate_limiter.py:9-28 | No sixty seconds admit more than one less than twice the limit |
| RateLimiter.BoundIsReached | services/auth/app/rate_limiter.py:9-28 | For every key and limit there is a run of requests in which some sixty seconds admit exactly that many |
| RateLimiter.KeysAreSeparate | services/auth/app/rate_limiter.py:11 | Teams without a colon in their identifier share no counter |
| Scoring.CauchySchwarz | services/league/app/scoring.py:83-90 | The square of the dot product is at most the product of the sums of squares, for vectors of any lengths |
| Scoring.DistanceBounds | services/league/app/scoring.py:83-90 | Cosine distance lies in [0, 2] |
| Scoring.DistanceOfMultiple | services/league/app/scoring.py:83-90 | It is 0 for a positive multiple and 2 for a negative one |
| Scoring.CreativityNeedsNoClamp | services/league/app/scoring.py:93-98 | Of a cosine distance the clamping takes nothing away |
| Scoring.CopyScoresNothing | services/league/app/scoring.py:75-98 | Among identical submissions the centroid is that submission and its creativity is 0 |
| Scoring.CompositeBounds | services/league/app/scoring.py:63-72 | Accepted nonnegative weights keep the composite in [0, 1010], and in [0, 1000] when they sum to one |
| Scoring.CompositeInRangeIff | services/league/app/scoring.py:63-72 | Of accepted weights on distinct dimensions every composite lies in [0, 1010] exactly when none is negative |
| Scoring.CompositeBoundReached | services/league/app/scoring.py:63-72 | Both bounds are reached |
| Scoring.NegativeWeightEscapes | services/league/app/scoring.py:63-72 | Weights on the seven dimensions, one of them negative, that a season accepts and that leave the range |
| Scoring.CompositeMonotone | services/league/app/scoring.py:71 | No score, rising, lowers the composite |
| Scoring.EfficiencyMeaning | services/league/app/scoring.py:28-37 | Using more never scores better; the median scores fifty |
| Scoring.ImprovementMeaning | services/league/app/scoring.py:47-60 | Over a positive best a higher score never rates lower; no change rates fifty |
| Scoring.ScoresInRange | services/league/app/scoring.py:28-60 | The clamped scores stay in [0, 100] |
| Scoring.EfficiencyIs | services/league/app/scoring.py:28-37 | Efficiency times what was used, at least one, is fifty times the median, clamped to [0, 100]; fifty for a median of zero |
| Scoring.ImprovementIs | services/league/app/scoring.py:47-60 | Improvement is fifty and a point for every hundredth gained on the best, clamped; fifty without one |
| Scoring.RobustnessIs | services/league/app/scoring.py:40-44 | Robustness is the share of variants passed, of a hundred |
| Scoring.CreativityIs | services/league/app/scoring.py:93-98 | Creativity is fifty points for each unit of distance, up to a hundred |
| Scoring.DistanceMeaning | services/league/app/scoring.py:83-90 | One less the distance, times both norms, is the dot product; a zero norm gives one |
| Scoring.CentroidMeaning | services/league/app/scoring.py:75-80 | There is a centroid unless there is no vector or one shorter than the first; times their number it is the sum of the vectors |
| Scoring.OneMoreDimension | services/league/app/scoring.py:68-71 | Each dimension adds its score, zero if missing, times its weight |
| Scoring.CompositeIs | services/league/app/scoring.py:63-72 | The composite is ten times that sum, and there is one exactly when the weights sum to one within a hundredth |

## Left out

- ConditionText.EvaluateRoundTrip: literals are null, booleans, integers and double-quoted strings, which have a canonical text; ConditionMeaning.ComparisonVerdict takes every other literal text.
- ConditionText.ResolvePath: which attributes a value has (services/workflow-worker/app/dag.py:43-44) is an uninterpreted constant, so nothing is assumed of it; path characters are the ASCII part of `\w`; `inf`, `nan` and non-ASCII digits in number literals are not parsed, and decimal numbers are exact.
- RunStore.Tables.HandleJob: the outcome of the agent is an input, and threat detection on outputs counts as a failure; the inputs and outputs stored with node rows are not part of the tables, nor are events, spawned runs, logs and scoped keys.
- RunStore.Tables.ClaimOne: one run's rows; other runs in the same queue only delay it.
- Termination.JobsBounded: assumes that no row is swept while a worker holds it; Hazards.ReclaimOverturnsFailure shows that the default lease does not guarantee it.
- Reviving.RevivableIff: asks for well-formed graphs (no loops), and for the half that says a run can succeed, that every node can deliver outputs that meet the conditions of all its edges, as it can where edges have none; for conditions that exclude each other Reviving.NeverRevived and Overwriting.FailureUndone leave a gap, since it depends on which can be met together, and how often a node runs.
- Joins.QueuedTwiceIff: asks for the same of the half that says a node can be queued twice; Joins.NodesRunOnce does not.
- Interleaving.OrderedAlways: a claim takes any claimable row, since SKIP LOCKED (services/workflow-worker/app/main.py:87) passes over earlier rows that another worker has locked and may never claim; the times of the steps are not tied together. For what no execution does this only adds executions; the runs of Branches claim earliest rows only, and elsewhere what can happen takes the order of claims as free.
- CompleteRuns.OnceInTopologicalOrder: assumes unconditional edges without parallels or loops and one job at a time; Hazards shows runs without.
- Redaction.RedactedIsClean: the key pattern as written, which is case-sensitive and asks for twenty characters.
- Sanitizer.SanitizedInputsAreSafe: the size of the JSON text is a parameter, so how it is computed is not modelled.
- Tunnels.FollowTunnels: the rows do not change during a search; errors of the database are not modelled.
- StreamTail.TailUsageIsStreamUsage: reading one `data:` line as JSON is a parameter; the Anthropic parser reads the front of a stream and is not modelled.
- Guardrails.EvaluateGuardrails: compiling, searching and substituting patterns are parameters.
- CacheHistory.SecondRequestHitsIff: nothing but time passes between the two requests; evictions and other requests in between are covered by CacheHistory.HitsAreExplained only.
- CacheHistory.HitsAreExplained: the digest, the similarity and the recognition of personal data are parameters, the digest colon-free and injective where that is said; authentication, allowed models and the budget gate come before and are left out; equally near rows are taken in table order.
- ResponseCache.Stores.RecordEmbeddingFailure: the counter of one process; opening the circuit is immediate rather than a background task.
- Autoroute.ScoreBounds: real arithmetic; rounding to four decimals is left out, as is the key scan that finds the models.
- JwkIntegers.Base64RoundTrip: the decoder's leniency towards characters outside the alphabet is not modelled; such text is an error.
- Relay.FirstToSettleWins: tokens, sockets and invocation ids are fresh, as random UUIDs are; the Redis copy of the slug mapping is left out.
- RateLimiter.AdmissionsBounded: the path where Redis answers, without a concurrent write between WATCH and EXEC, time in whole seconds; the fail-open path admits everything.
- Scoring.CompositeBounds: real arithmetic; rounding to two decimals and exact-match quality are left out. A norm is a number whose square is the sum of squares.
- Networks, containers, the databases themselves, RSA and token signing, and everything in TypeScript.
- Authentication, budgets, migrations, MCP dispatch, logging and configuration, which would only add easy members.
