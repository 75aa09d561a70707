# Verified models of Infinity

This project models the parts of the Infinity database whose correctness is hard to see from
the code, and proves what they promise:

- **The paged queue** (`mpsc_*.dfy`). Many producers and one consumer share a linked list of pages
  of slots. A producer draws a location from `tail_`, finds or links the page of the location,
  writes the slot and raises its flag. The consumer may pass a stalled producer and folds pages
  away that are fully handled. The queue is modelled twice: as a step system with any number of
  producers, in which every atomic access of a producer is a step and a whole dequeue is one step,
  and as a class of linked pages and slot arrays that is proved against the same model and refines
  a plain sequence.
- **CRC** (`crc.dfy`). The table-driven CRC equals the bit-serial division, for every register
  width, polynomial, start and final value; CRC-32 as in clause 3.2.9 of IEEE 802.3 and section 8
  of RFC 1952 has their generator polynomial and check value, and detects every change confined to
  four consecutive bytes.
- **Plan fragments** (`fragment_*.dfy`). The recursive builder that cuts a physical plan into
  fragments, a closed form of what it builds, what it does with each operator type, and the text of
  EXPLAIN.
- **The queue between fragments** (`queue_source.dfy`). The completion-counting protocol by which
  a fragment gathers the output of its child tasks, and the sink that feeds it.
- **Late materialisation** (`output_jobs.dfy`, `input_load.dfy`). The sorted, cached job list that
  reads cells from storage, and the columns it is used to load.
- **Group-by tables** (`hash_table.dfy`). Key encoding, the partition by key, and first-come
  lookup.
- **Byte encoders** (`encoders.dfy`). Length-prefixed result columns, and the narrowing of
  embeddings in place.
- **The sanitizer log filter** (`tsan_filter.dfy`).

Source that updates things in place is modelled by classes and methods with loops; each method is
proved equal to a function, and the promises are proved about that function.

## What the proofs found

Where the code does not keep a promise for every input, the model keeps the code as it is and
states exactly when the promise holds.

- The paged queue's dequeue is documented to return false when the queue is empty. The plain store
  to `tail_of_queue_` after linking a page can move it backwards. Then dequeue can return false
  although every enqueue has returned and an element was never delivered. There is such a run for
  every page size of two or more (`MpscLimits.FinishedElementIsMissed`). Dequeue returns false
  exactly when there is no ready element, or when the pages run into a fully handled page at
  `tail_of_queue_` and all ready elements lie behind it (`MpscConsumer.DequeueOutcome`).
- A dequeue may fold a page away that an enqueue still has to cross on its walk back. For every page
  size the code has a run in which the enqueue then dereferences a null `prev_`
  (`MpscCrash.UnsafeFoldCrashes`). A walk that meets a dequeue still finds its page exactly when
  that dequeue folds no page behind the location whose successor the walk passes; otherwise it runs
  off the list or the element is written whole pages too low (`MpscWalk.FoldHarmsIff`). The
  theorems about runs cover the actions after which every walk back still ends at its page, exactly
  (`MpscWalk.EnabledIff`). Which pages a dequeue folds is given in closed form
  (`MpscFolds.FoldsIff`).
- A comment in the paged queue calls it wait-free. Every enqueue is, in all runs of the code: while
  it has not returned, the number of its own steps stays below a bound in the page of its location,
  the number of producers and the number of pages (`MpscProgress.EnqueueIsWaitFree`).
- The fragment builder accepts operators with inputs that it never looks at, and Explain gives its
  input away unless it is a PIPELINE. Rebuilding the plan from the fragments gives the plan exactly
  when there is no such operator and no input takes the place of another
  (`FragmentProperties.LosslessIff`). A Filter with a right input is one
  (`FragmentProperties.IgnoredInput`), and so is every other Explain with an input
  (`FragmentProperties.ExplainedIsLostIff`).
- A built tree has its sources and sinks in place exactly when no fragment but the root ends in an
  Explain, and the root in no EXPLAIN PIPELINE: that one keeps the explained fragments as a child
  that sends to the result although it is not a root (`FragmentProperties.BuiltIsConnectedIff`).
- The receiver reports unexpected data exactly when a fragment sends more completing messages than
  it has pending tasks, and answers true exactly when every fragment has sent as many
  (`QueueSource.ReceivedIff`, `QueueSource.AnswersTrueIff`). A streaming sink marks every block of its
  last batch as the final one. A task keeps to the completion protocol exactly when it ends with an
  error, its last batch has one block, or that batch has any block in a materializing fragment
  (`QueueSource.SinkKeepsProtocolIff`). With a larger last batch the error comes, in every order of
  arrival, if every other task completes too (`QueueSource.TasksReceivedIff`); it may come on the
  message of another task, after GetData has already answered true (`QueueSource.AnswersTooEarly`).
- The job cache starts from the largest ids as if they were cached. It reads every job from its own
  column exactly when the jobs do not all lie in the block with the largest ids and no block has
  jobs for the column with the largest id only (`OutputJobs.FaithfulIff`). A single job for that
  column reads a vector that was never fetched (`OutputJobs.LastColumnIsTrapped`).
- The block id of a row is cut to 16 bits, so a segment offset survives exactly below 2^29
  (`InputLoad.SplitLosslessIff`).
- Hash keys separate all rows without nulls exactly when at most one column is a varchar
  (`HashTables.IdentifiesIff`); with zero-free varchars they always do. Nulls add nothing to a key,
  because the appended literal is an empty C string. With nulls, keys separate all rows exactly when
  a varchar is the only column, or when there is no varchar and different sets of columns have
  different sums of size + 1 (`HashTables.IdentifiesNullsIff`). So two columns of one size never do,
  and columns of one and two bytes do (`HashTables.NullExamples`). The comment on the key layout
  mentions none of this.
- The encoders' lengths are read back exactly below 2^31. The cursor of a tensor or tensor array
  column ends at the computed size exactly when that is below 2^31, and the cursor of a varchar
  column exactly when every length is.

## Model

| member | source | states |
|---|---|---|
| `MpscModel.LocIsDivMod` | benchmark/common/mpsc_queue.h:252-264 | page and slot of a location, found by subtracting page sizes, are its quotient and remainder by the page size |
| `MpscConsumer.DequeueOutcome` | benchmark/common/mpsc_queue.h:117-241 | a dequeue takes the published element of least location, leaves every other slot alone and keeps the invariant; it returns false exactly when nothing is ready or all that is ready lies behind a handled page at the tail pointer |
| `MpscConsumer.ScanOutcome` | benchmark/common/mpsc_queue.h:132-221 | the scan past a stalled head slot, with its folds, finds the least ready element or none under the same condition |
| `MpscConsumer.DequeueRelinks` | benchmark/common/mpsc_queue.h:189-218 | after a dequeue prev_ has changed only on the pages behind a folded one, which now point past it, and next_ only on pages before a folded one; every folded page was fully handled, had a next page and was neither the head nor the tail page |
| `MpscFolds.FoldsIff` | benchmark/common/mpsc_queue.h:132-221 | a dequeue folds a page exactly when the page is fully handled, is reached along next_ from the head page, is not the tail page, has a next page, lies behind a page that is not fully handled, has every ready element behind it, and no handled tail page lies on the way |
| `MpscSystem.StepInv` | benchmark/common/mpsc_queue.h:243-306 | every atomic step of any producer keeps the invariant of the whole system, where a load of tail_of_queue_ finds the pages down to the location consecutive |
| `MpscSystem.ConsumeInv` | benchmark/common/mpsc_queue.h:117-241 | every dequeue that folds no page in front of a producer which is walking back keeps the invariant of the whole system |
| `MpscRuns.RunInv` | benchmark/common/mpsc_queue.h:95-306 | every state of every run of any number of producers satisfies the invariant, where every action may be taken but those that make a walk back lose count; in particular no walk back ever runs off the list |
| `MpscRuns.Conservation` | benchmark/common/mpsc_queue.h:117-306 | in every state of every run the drawn locations are those in flight and those published, the published ones are exactly the delivered and the still untaken ones, nothing is delivered twice and each delivery is the element enqueued at its location |
| `MpscRuns.DequeueInRun` | benchmark/common/mpsc_queue.h:117-241 | every dequeue of every run delivers the untaken published element of least location, or nothing under the exact condition |
| `MpscRuns.RealTimeOrder` | benchmark/common/mpsc_queue.h:117-306 | an enqueue that published its element before another one began is delivered first, in every run |
| `MpscRuns.WritesOwnSlot` | benchmark/common/mpsc_queue.h:255-268 | a producer step changes no slot but slot L mod size of the page in position L/size + 1, where L is the location this producer drew |
| `MpscRuns.PagesStayConsecutive` | benchmark/common/mpsc_queue.h:269-302 | in every run without folds the links join consecutive positions both ways, tail_of_queue_ is a linked page and no page is lost |
| `MpscRuns.OneSuccessor` | benchmark/common/mpsc_queue.h:274-297 | in every run without folds a page that has a next page keeps it forever |
| `MpscRuns.NoWrapAround` | benchmark/common/mpsc_queue.h:119-261 | in every run whose locations stay below 2^32 - size the unsigned int arithmetic of enqueue, and the start of the tail page that dequeue computes, stay strictly below 2^32 |
| `MpscLimits.FinishedElementIsMissed` | benchmark/common/mpsc_queue.h:269-293 | for every page size of two or more, a run of three producers to a state in which every enqueue has returned, the element at location 2 * size is ready and dequeue finds nothing |
| `MpscWalk.WalkRightIff` | benchmark/common/mpsc_queue.h:255-268 | on any queue the walk back ends at the page of the location exactly when the pages it crosses are consecutive; otherwise the element is misplaced |
| `MpscWalk.StraightAfterIff` | benchmark/common/mpsc_queue.h:189-218 | after a dequeue the pages that a walk crosses are consecutive under that same condition and no other |
| `MpscWalk.FoldHarmsIff` | benchmark/common/mpsc_queue.h:189-268 | a walk back that meets a dequeue finds the page of its location exactly when the dequeue folds no page behind the location whose successor the walk passes; otherwise it runs off the list or writes whole pages too low |
| `MpscWalk.EnabledIff` | benchmark/common/mpsc_queue.h:189-268 | an action of the code is one of those that the runs cover exactly when after it every walk back under way ends at the page of its location |
| `MpscCrash.UnsafeFoldCrashes` | benchmark/common/mpsc_queue.h:189-259 | for every page size, a run of two producers as the code allows it, in which a dequeue folds a page that an enqueue has to cross and the enqueue then dereferences a null prev_ |
| `MpscProgress.OthersNeverDelay` | benchmark/common/mpsc_queue.h:269-302 | no step of another producer or of the consumer raises the bound on the steps that a call still has to take |
| `MpscProgress.EnqueueIsWaitFree` | benchmark/common/mpsc_queue.h:91-92 | in every run of the code, with all folds, an enqueue that has not returned has taken fewer of its own steps than 4 * ((t + 1) * (t + n) + 2 * t + 1) plus the number of pages, for a location on page t and n producers |
| `MpscProgress.EnqueueReturns` | benchmark/common/mpsc_queue.h:248-305 | in the runs without lost walks an enqueue that has taken that many steps has returned |
| `MpscFifo.RunPublishes` | benchmark/common/mpsc_queue.h:243-306 | an enqueue that runs alone ends, measured by the distance of the tail page from the target page, and has published exactly its own element |
| `MpscFifo.EnqueueAppends` | benchmark/common/mpsc_queue.h:243-306 | between whole calls an enqueue appends to the sequence the queue holds |
| `MpscFifo.DequeueRemoves` | benchmark/common/mpsc_queue.h:117-241 | between whole calls a dequeue returns and removes the oldest element, and returns false exactly when there is none |
| `MpscFifo.RefinesFifo` | benchmark/common/mpsc_queue.h:95-306 | every sequence of whole calls gets the answers of a plain FIFO sequence |
| `MpscFifo.NewQueueIsFifo` | benchmark/common/mpsc_queue.h:95-306 | a new queue, for any page size, answers every sequence of calls as an empty FIFO sequence does |
| `MpscQueueClass.MPSCQueue.constructor` | benchmark/common/mpsc_queue.h:95-104 | one empty page that is both head and tail |
| `MpscQueueClass.MPSCQueue.Enqueue` | benchmark/common/mpsc_queue.h:243-306 | the linked pages and slot arrays after the call are those of the model, and the sequence held is extended by the element |
| `MpscQueueClass.MPSCQueue.Finish` | benchmark/common/mpsc_queue.h:248-305 | the retry loop terminates and runs the producer of the step model to its end |
| `MpscQueueClass.MPSCQueue.Dequeue` | benchmark/common/mpsc_queue.h:117-241 | takes the published element of least location, or none under the exact condition; between whole calls, the head of the sequence |
| `MpscQueueClass.MPSCQueue.ScanForward` | benchmark/common/mpsc_queue.h:136-221 | the scan loop over the linked pages, with its folds, is the scan of the model |
| `MpscQueueClass.MPSCQueue.Fold` | benchmark/common/mpsc_queue.h:196-202 | takes a page out of the doubly linked list |
| `MpscQueueClass.MPSCQueue.WalkBack` | benchmark/common/mpsc_queue.h:255-259 | ends at a page that starts at or before the location, and at its page if it moved |
| `Crc.TurnsLinear` | benchmark/common/crc.hpp:18-19 | bit steps are linear over XOR |
| `Crc.SerialIsTurns` | benchmark/common/crc.hpp:18-34 | taking in bits one by one equals adding them all to the register and turning as often |
| `Crc.TableStep` | benchmark/common/crc.hpp:16-34 | one table lookup equals eight bit-serial steps |
| `Crc.CRCBase.constructor` | benchmark/common/crc.hpp:15-22 | every table entry is eight bit steps of its index |
| `Crc.MakeCRC` | benchmark/common/crc.hpp:29-36 | for every buffer, polynomial, start and final value the table-driven loop gives the bit-serial CRC |
| `Crc.TurnInjectiveIff` | benchmark/common/crc.hpp:19-40 | a bit step loses nothing exactly when the top bit of the polynomial is set |
| `Crc.BurstDetected` | benchmark/common/crc.hpp:29-36 | messages that differ only inside a window no longer than the register have different CRCs |
| `Crc.Crc32DetectsFourBytes` | benchmark/common/crc.hpp:40-41 | messages of equal length that differ only inside four consecutive bytes have different CRC-32 values |
| `Crc.Crc32Polynomial` | benchmark/common/crc.hpp:40-41 | bit 31 - e of the polynomial is set exactly when x^e is a term of the generator polynomial of clause 3.2.9 of IEEE 802.3 |
| `Crc.Crc32CheckValue` | benchmark/common/crc.hpp:25-41 | the CRC-32 of the ASCII digits 1 to 9 is 0xCBF43926, with all ones at the start and at the end |
| `FragmentTheorems.BuildIsCut` | src/executor/fragment_builder.cpp:103-452 | the recursive updates of a fragment, with all overwriting type settings, give the closed form for every plan: the path of operators, the type computed from that path, the source, the child fragments in order, and what an Explain builds and keeps; the exception comes exactly for plans with a refused operator, a missing or surplus input, EXPLAIN ANALYZE or an invalid explain type |
| `FragmentProperties.TypeIsTopmost` | src/executor/fragment_builder.cpp:142-189 | the type of a fragment is that of the topmost Aggregate, Top, Sort, Update or Delete on its path if there is one, otherwise that of its last operator |
| `FragmentTheorems.RootIsCut` | src/executor/fragment_builder.cpp:41-101 | BuildFragment gives the closed form with a result sink, and an empty source if no operator has set one, or an exception exactly for the plans that are not accepted |
| `FragmentOperators.BuiltByOperator` | src/executor/fragment_builder.cpp:41-452 | what BuildFragment returns is composed bottom up from the trees of the inputs, by operator type: which operators stay on top of their left input, which gather their inputs as child fragments, the type and the source of each, and which are refused |
| `FragmentOperators.FirstFragment` | src/executor/fragment_builder.cpp:103-452 | by operator type: which operators share the fragment of their left input, and which last operators make a fragment read a table or a queue |
| `FragmentOperators.MergeTopOverTop` | src/executor/fragment_builder.cpp:168-251 | MergeTop over Top over TableScan is built as two fragments: the merge, serial, which reads a queue, and below it Top and TableScan, parallel, which read the table |
| `FragmentProperties.IdsAreConsecutiveIff` | src/executor/fragment_builder.cpp:103-452 | fragment ids number the tree consecutively, parents first, exactly when no EXPLAIN FRAGMENT has drawn ids for fragments that are not kept |
| `FragmentProperties.IdsIncrease` | src/executor/fragment_builder.cpp:41-452 | in every tree each fragment has a larger id than its parent and all fragments before it, within the ids that the plan draws |
| `FragmentProperties.CutIsConnectedIff` | src/executor/fragment_builder.cpp:214-251 | each fragment has its source and its sink, the sink is a queue exactly below the root, and a queue source has children, exactly when no fragment but the root ends in an Explain and the root in no PIPELINE |
| `FragmentProperties.BuiltIsConnectedIff` | src/executor/fragment_builder.cpp:41-101 | the same of the tree that BuildFragment returns |
| `FragmentProperties.LosslessIff` | src/executor/fragment_builder.cpp:103-452 | for every plan that BuildFragment accepts, rebuilding the plan from the fragments returns it exactly when no operator has an input that is not looked at, not kept or taken for another |
| `FragmentProperties.IgnoredInput` | src/executor/fragment_builder.cpp:154-167 | a Filter with a right input is accepted and loses that input |
| `FragmentProperties.ExplainedIsLostIff` | src/executor/fragment_builder.cpp:60-101 | of the Explain operators that are built, exactly PIPELINE keeps the explained plan |
| `FragmentProperties.EveryOperatorOnceIff` | src/executor/fragment_builder.cpp:103-452 | the fragments hold the operators of the plan, each once, in pre-order, exactly when every input is looked at and kept; otherwise they hold fewer |
| `FragmentProperties.BuiltHoldsAllIff` | src/executor/fragment_builder.cpp:41-101 | the same of the tree that BuildFragment returns, with or without Explain |
| `FragmentBuilderClass.FragmentBuilder.BuildFragments` | src/executor/fragment_builder.cpp:103-452 | the method that mutates fragments builds the tree of the model out of distinct objects; no source is set twice |
| `FragmentBuilderClass.FragmentBuilder.BuildExplain` | src/executor/fragment_builder.cpp:60-101 | the Explain cases, as the model says |
| `FragmentBuilderClass.FragmentBuilder.BuildFragment` | src/executor/fragment_builder.cpp:41-58 | one plan gives one fragment tree with a result sink, or the exception |
| `FragmentExplain.Explain` | src/executor/explain_fragment.cpp:28-76 | appending lines and rewriting the last one gives the text of the whole tree: for each fragment its title, what is printed for its sink, its operators in order and its source, the names of its children on that last line, a blank line, then the children in order |
| `FragmentExplain.TextOfLines` | src/executor/explain_fragment.cpp:36-76 | that text is the one of the lines whose titles and references are accounted for |
| `FragmentExplain.TextOfParent` | src/executor/explain_fragment.cpp:36-76 | the lines of a fragment with one child, whose name follows the source after a colon, and then those of the child |
| `FragmentExplain.TextOfLeaf` | src/executor/explain_fragment.cpp:36-66 | the lines of a fragment without children: title, sink, operator, source, blank |
| `FragmentExplain.WrittenTitles` | src/executor/explain_fragment.cpp:28-34 | a title is in parentheses in the head and has a number sign in a footer |
| `FragmentExplain.JoinedNames` | src/executor/explain_fragment.cpp:51-62 | the names of children in a footer are separated by a comma and a blank |
| `FragmentExplain.DecimalIsRead` | src/executor/explain_fragment.cpp:28-34 | fragment ids are written as decimal numbers without leading zeros |
| `FragmentExplain.TitlesOfTree` | src/executor/explain_fragment.cpp:36-76 | every fragment of any tree gets its title once, in tree order |
| `FragmentExplain.RefsOfTree` | src/executor/explain_fragment.cpp:51-64 | the root, the fragments named by footers and the children of fragments without a source are together all fragments, each once |
| `FragmentExplain.TitlesOfBuilt` | src/executor/explain_fragment.cpp:36-76 | on every freshly built tree the titles are the ids of its fragments, strictly increasing |
| `FragmentExplain.RefsOfBuiltIff` | src/executor/explain_fragment.cpp:51-64 | on a freshly built tree every fragment but the root is named once by a footer, exactly when no EXPLAIN PIPELINE ends a fragment that sends to a queue |
| `QueueSource.EveryInterleaving` | src/executor/operator_state.cpp:29-83 | in every interleaving of child tasks that keep to the protocol no message is unexpected and num_tasks_ counts the unfinished tasks |
| `QueueSource.TrueOnLastMessage` | src/executor/operator_state.cpp:85-183 | GetData answers true on the last message of all and on none before it |
| `QueueSource.PendingPlusCompleted` | src/executor/operator_state.cpp:29-41 | whatever the messages are, pending tasks and completions of a fragment add up to the same number throughout |
| `QueueSource.ReceivedIff` | src/executor/operator_state.cpp:29-83 | whatever the messages are, none is unexpected exactly when no fragment sends more completing messages than it has pending tasks |
| `QueueSource.LastTaskAnswers` | src/executor/operator_state.cpp:52-85 | with one task pending, GetData answers true on an error, on an empty message, and on data of the last batch that have no index or the last one |
| `QueueSource.AnswersTrueIff` | src/executor/operator_state.cpp:85-183 | GetData answers true exactly when every fragment has sent as many completing messages as it had pending tasks |
| `QueueSource.OrderDoesNotMatter` | src/executor/operator_state.cpp:29-83 | whether some message is unexpected does not depend on the order in which the tasks send |
| `QueueSource.OneCompletionEachIff` | src/executor/operator_state.cpp:29-83 | for tasks that all complete, no message is unexpected in any order of arrival, exactly when each of them completes just once |
| `QueueSource.AnnouncedCounts` | src/scheduler/fragment_context.cpp:599-604 | the numbers of tasks of the child fragments are the counts the protocol starts from |
| `QueueSource.QueueSourceState.Announce` | src/scheduler/fragment_context.cpp:599-604 | when every task of every child fragment has announced the number of tasks of its fragment, num_tasks_ holds those numbers |
| `QueueSource.FirstErrorKept` | src/executor/operator_state.cpp:63-68 | the status kept is that of the first error, if there was none before |
| `QueueSource.FirstErrorIs` | src/executor/operator_state.cpp:63-68 | the first error is the error message before which there is none |
| `QueueSource.FusionGetsArrivalOrder` | src/executor/operator_state.cpp:109-115 | the block list of a fragment is its blocks in order of arrival |
| `QueueSource.LimitGetsAll` | src/executor/operator_state.cpp:116-149 | all blocks in order of arrival and the sum of the flagged hit counts |
| `QueueSource.TensorGetsAll` | src/executor/operator_state.cpp:102-108 | MergeMatchTensor gets all blocks in order of arrival |
| `QueueSource.LimitIsSticky` | src/executor/operator_state.cpp:116-149 | MergeLimit and MergeTop: the input is complete from the message on that leaves no task pending, the queue is closed from then on, and the hits flag is set as soon as one message has it |
| `QueueSource.LatestIsKept` | src/executor/operator_state.cpp:88-101 | operators that keep one block see the latest one, and are told that the input is complete exactly when no task is pending |
| `QueueSource.CompleteIff` | src/executor/operator_state.cpp:86-115 | every operator but MergeLimit and MergeTop is told with each message whether the input is complete, exactly when no task is pending |
| `QueueSource.OtherFieldsKept` | src/executor/operator_state.cpp:86-183 | no operator has the fields of another one changed |
| `QueueSource.QueueSourceState.MarkCompletedTask` | src/executor/operator_state.cpp:29-41 | decrements, erases at zero, reports an unknown fragment |
| `QueueSource.QueueSourceState.GetData` | src/executor/operator_state.cpp:46-184 | takes one message off the queue and moves to the state of the protocol, or reports an empty queue or unexpected data |
| `QueueSource.Sink` | src/executor/operator/physical_sink.cpp:470-511 | the messages of one call of the sink: the error, nothing while a materializing fragment goes on, or one message for each block, in order, with the hits of the operator |
| `QueueSource.SinkKeepsProtocolIff` | src/executor/operator/physical_sink.cpp:470-511 | a task's messages keep to the protocol exactly when it ends with an error, or when its last batch is not empty, and has one block if the fragment streams |
| `QueueSource.SurplusFinalBlocksIff` | src/executor/operator/physical_sink.cpp:499-501 | the last batch of one streaming task by itself leads to the unexpected-data error exactly when it has more blocks than the fragment has pending tasks |
| `QueueSource.TasksReceivedIff` | src/executor/operator/physical_sink.cpp:470-511 | tasks behind their sinks with last batches that are not empty, in any order of arrival: no message is unexpected exactly when every streaming task ends with an error or with one block |
| `QueueSource.AnswersTooEarly` | src/executor/operator/physical_sink.cpp:499-501 | two streaming tasks of a fragment of which the first ends with two blocks: GetData answers true before the second has sent anything, and its last block is unexpected |
| `OutputJobs.DirectCell` | src/executor/physical_operator.cpp:143-144 | after direct reads with distinct destinations each cell holds what its job names, and the others what they held |
| `OutputJobs.AnyOrder` | src/executor/physical_operator.cpp:126-134 | with distinct destinations the order of the jobs does not matter |
| `OutputJobs.SortSorted` | src/executor/physical_operator.cpp:126-126 | sorting orders the jobs and permutes them |
| `OutputJobs.FieldByField` | src/executor/physical_operator.cppm:127-138 | the order compares the fields one after the other as they are declared |
| `OutputJobs.CachedIsDirect` | src/executor/physical_operator.cpp:123-148 | the sorted, cached loop writes what direct reads write, and fetches each block entry and each column vector that is named exactly once |
| `OutputJobs.FaithfulIff` | src/executor/physical_operator.cpp:127-142 | every job is read from its own column exactly when the sentinel ids are not hit |
| `OutputJobs.LastColumnIsTrapped` | src/executor/physical_operator.cpp:127-142 | a single readable job for the column with the largest id hits the sentinel, and the loop reads a vector that it never fetched |
| `OutputJobs.OutputToDataBlockHelper.OutputToDataBlock` | src/executor/physical_operator.cpp:123-148 | the loop over the sorted jobs with its two cache levels updates the blocks as the model says and clears the jobs |
| `InputLoad.InsertedAtIndex` | src/executor/physical_operator.cpp:101-121 | inserting at increasing indices puts each item at its index |
| `InputLoad.InsertKeepsOthers` | src/executor/physical_operator.cpp:101-121 | taking the inserted items out again gives back the list |
| `InputLoad.Aligned` | src/executor/physical_operator.cpp:101-121 | the element at a position of names, types or columns has the same origin in all three |
| `InputLoad.GetOutputNames` | src/executor/physical_operator.cpp:101-110 | the loop inserts the names at the load indices, up to the end of the list |
| `InputLoad.GetOutputTypes` | src/executor/physical_operator.cpp:112-121 | the loop inserts the types at the load indices, up to the end of the list |
| `InputLoad.SplitLosslessIff` | src/executor/physical_operator.cpp:92-94 | a segment offset is recovered from block and offset exactly below 2^29 |
| `InputLoad.LoadsStoredValues` | src/executor/physical_operator.cpp:49-99 | the loaded blocks are the old columns with each loaded column inserted at its index |
| `InputLoad.LoadedByRowId` | src/executor/physical_operator.cpp:88-99 | each loaded cell holds the value stored at its row's id |
| `InputLoad.OthersKept` | src/executor/physical_operator.cpp:72-83 | the row ids stay last and the other columns are unchanged and in order |
| `InputLoad.Load` | src/executor/physical_operator.cpp:49-99 | the whole method: nothing to load or a missing table, with any blocks, or the run of the jobs on the widened blocks |
| `HashTables.TextKeysInjective` | src/executor/hash_table.cpp:73-95 | rows without nulls and with zero-free varchars have equal keys only if they are equal |
| `HashTables.KeyLayout` | src/executor/hash_table.cpp:73-95 | a key holds the bytes of the columns that are not null, in order, each followed by a zero byte, and nothing else |
| `HashTables.IdentifiesIff` | src/executor/hash_table.cpp:73-95 | the keys of all rows without nulls differ exactly when at most one column is a varchar |
| `HashTables.IdentifiesNullsIff` | src/executor/hash_table.cpp:73-95 | the keys of all rows, nulls included, differ exactly when a varchar is the only column, or there is no varchar and different sets of columns have different sums of size + 1 |
| `HashTables.NullExamples` | src/executor/hash_table.cpp:78-82 | two columns of one size always have rows with nulls that collide; columns of one and two bytes never have |
| `HashTables.KeyHasKeySize` | src/executor/hash_table.cpp:66-98 | a nonzero key size is the length of every key of a row without nulls |
| `HashTables.Init` | src/executor/hash_table.cpp:31-71 | the loop with its early stop and its refusal gives the key size |
| `HashTables.KeySizeIff` | src/executor/hash_table.cpp:31-71 | the key size is refused exactly when an unsupported type comes before the first varchar; it is zero exactly when there is no type or a varchar (or a first column of no bytes) comes before any unsupported type; otherwise it is the sum of the sizes and one byte for each column |
| `HashTables.GetHashKey` | src/executor/hash_table.cpp:73-99 | the loop gives the key of the row and the mismatch error is never raised |
| `HashTables.AppendPartitions` | src/executor/hash_table.cpp:101-110 | after blocks with different ids the list of a key and a block is exactly the rows of that block with that key, ascending |
| `HashTables.OnlyAppended` | src/executor/hash_table.cpp:101-110 | the table names no other blocks |
| `HashTables.HashTable.Append` | src/executor/hash_table.cpp:101-110 | the table represents the history extended by the rows of the block |
| `HashTables.MergeHashTable.GetOrInsert` | src/executor/hash_table.cpp:127-140 | answers whether the key was there, and always the first row inserted with it |
| `HashTables.MergeHashTable.Append` | src/executor/hash_table.cpp:112-125 | inserts all rows, or reports a duplicate, exactly when some key is not new |
| `HashTables.FalseOncePerKey` | src/executor/hash_table.cpp:127-140 | a series of GetOrInsert calls answers false for each of its keys exactly once, at the first row with that key, which is the row answered from then on |
| `Encoders.ChunksRoundTripIff` | src/embedded_infinity/wrap_infinity.cpp:1116-1188 | varchar and tensor rows are read back from their encoding exactly when every length is below 2^31 |
| `Encoders.LittleEndian` | src/embedded_infinity/wrap_infinity.cpp:1127-1128 | a length takes four bytes, the lowest first |
| `Encoders.ChunkLayout` | src/embedded_infinity/wrap_infinity.cpp:1126-1132 | each row of a varchar or tensor column is its length and its bytes, behind the rows before it |
| `Encoders.ReadIsEncoded` | src/embedded_infinity/wrap_infinity.cpp:1127-1132 | whatever can be read as rows is the encoding of those rows |
| `Encoders.ArraysRoundTripIff` | src/embedded_infinity/wrap_infinity.cpp:1190-1220 | tensor arrays are read back exactly when every count and length is below 2^31 |
| `Encoders.ArrayLayout` | src/embedded_infinity/wrap_infinity.cpp:1206-1216 | each row of a tensor array column is its number of tensors and its tensors, behind the rows before it |
| `Encoders.SparsesRoundTripIff` | src/embedded_infinity/wrap_infinity.cpp:1222-1245 | sparse vectors are read back exactly when every count is below 2^31 |
| `Encoders.SparseLayout` | src/embedded_infinity/wrap_infinity.cpp:1222-1245 | each row of a sparse column is its number of entries, its indices and its values, behind the rows before it |
| `Encoders.EncodeVarchars` | src/embedded_infinity/wrap_infinity.cpp:1116-1136 | sizing in one pass and filling in a second writes the whole buffer in bounds with the encoding, while all lengths but the last are below 2^31, and leaves the cursor of the model |
| `Encoders.EncodeTensors` | src/embedded_infinity/wrap_infinity.cpp:1144-1188 | the same with a 32-bit cursor, while the last row starts below 2^31 |
| `Encoders.CursorEndsAtSizeIff` | src/embedded_infinity/wrap_infinity.cpp:1178-1184 | the 32-bit cursor ends at the computed size exactly when that is below 2^31 |
| `Encoders.VarcharCursorEndsAtSizeIff` | src/embedded_infinity/wrap_infinity.cpp:1126-1132 | the SizeT cursor of a varchar column ends at the computed size exactly when every length is below 2^31 |
| `Encoders.ArrayCursorEndsAtSizeIff` | src/embedded_infinity/wrap_infinity.cpp:1206-1216 | the same of the cursor of tensor array columns |
| `Encoders.EncodeTensorArrays` | src/embedded_infinity/wrap_infinity.cpp:1190-1220 | the nested two-pass encoder fills the buffer with the encoding, while the last write begins below 2^31, and leaves the cursor of the model |
| `Encoders.EncodeSparses` | src/embedded_infinity/wrap_infinity.cpp:1222-1245 | the two-pass encoder writes counts, indices and values, in that order, and fills the buffer |
| `Encoders.Narrow` | src/embedded_infinity/wrap_infinity.cpp:261-303 | the loop through two views of the same bytes leaves the memory that the in-place model says, for every length, pair of widths and conversion |
| `Encoders.InPlaceIsSeparate` | src/embedded_infinity/wrap_infinity.cpp:261-303 | narrowing in place gives the result of converting into a separate array, for every length and every pair of widths that does not grow, and touches nothing behind the items |
| `TsanFilter.FilterWarning` | scripts/collect_thread_sanitizer_log.py:18-43 | the loop returns, in order, the lines of the closed reports whose inner lines contain no keyword |
| `TsanFilter.ReportsOfLines` | scripts/collect_thread_sanitizer_log.py:23-32 | reading back the lines of reports gives the reports |
| `TsanFilter.ContainsIff` | scripts/collect_thread_sanitizer_log.py:24-37 | a line contains a word exactly when it is that word between two other strings |
| `TsanFilter.DelimitsIff` | scripts/collect_thread_sanitizer_log.py:13-24 | a line delimits exactly when the delimiter stands somewhere in it |
| `TsanFilter.ReportsOfLog` | scripts/collect_thread_sanitizer_log.py:23-32 | whatever lines stand between them, the reports of a log are its closed reports, in order; an open one at the end is none |
| `TsanFilter.EveryLog` | scripts/collect_thread_sanitizer_log.py:23-32 | every log consists of such reports with lines between them, and at the end maybe an open one |
| `TsanFilter.KeepInOrder` | scripts/collect_thread_sanitizer_log.py:29-31 | what is kept stays in order |
| `TsanFilter.KeptReports` | scripts/collect_thread_sanitizer_log.py:33-42 | exactly the reports are kept, as often as they come, of which no inner line has a keyword in it |
| `TsanFilter.FilterTwice` | scripts/collect_thread_sanitizer_log.py:18-43 | filtering by one list of keywords and then by another is filtering by both |
| `TsanFilter.FilterIdempotent` | scripts/collect_thread_sanitizer_log.py:18-43 | filtering again changes nothing |

## Left out

- Weak memory orders, `free`, page reclamation and locations from 2^32 - size on in the paged queue; steps are sequentially consistent and a freed page is only unlinked.
- The re-scan inside dequeue (mpsc_queue.h:144-171): it looks for flags raised while dequeue runs, and here a dequeue is one step.
- The page size of 1620; every page size is covered, and by the two failing runs every one up to 2^30 - 1.
- `PlanFragment::AddNext` and several plans in one BuildFragment call; the model builds one plan.
- Output names and types of plan operators: a source or sink carries the id of the operator whose names and types it takes.
- The text that ExplainPhysicalPlan prints for an operator; it is a parameter.
- The hand-off of error and none messages to the next operator, which reads them as data messages; the model hands on data only.
- A full queue that refuses messages (physical_sink.cpp:506-508), waiting, and the scheduling of tasks.
- Errors that a task reports to its sink more than once; in the model an error is its last message.
- Column vector internals, compact-bit booleans and the buffer manager: a column is a sequence of cells, and a block entry a map of columns.
- InputLoad.Load: block, column and row numbers of the output are not cut to 32 bits. Blocks with something to load are rectangular with row ids in the last column and insert positions before it; the code reads that column as row ids and inserts without a check (physical_operator.cpp:78-88).
- OutputJobs.OutputToDataBlockHelper.OutputToDataBlock: where the code would follow a null block entry or read a missing vector, the model stops with an error.
- Encoders.EncodeVarchars: asks for lengths below 2^31 in all rows but the last, since a longer one moves the cursor backwards and the next write leaves its place, and for a size below 2^63, since a String holds no more.
- Encoders.VarcharCursorEndsAtSizeIff: for sizes below 2^63, for the same reason.
- Encoders.EncodeTensors: asks for a last row that starts below 2^31, since an i32 cursor cannot name a later place.
- Encoders.EncodeTensorArrays: asks for a last write that begins below 2^31, for the same reason.
- Encoders.Narrow: the conversion of one element is a parameter; rounding of floats is not modelled, and neither is the choice of the embedding array.
- Reading log files and writing results in `collect_log`.
- The rest of the database: storage, catalog, indexes, SQL front end, network, admin statements and clients; thin wrappers and tables of messages would only add easy members.
