# Mission Control: a verified model of the backend's protocols

Mission Control's backend keeps several pieces of shared state under concurrent requests, and a
few small algorithms that stand in for simpler ones. This project models them in Dafny, one
module per component, and proves what they keep over every run and every input.

* **Reading a skills index** (`JsonScanner`, `JsonPrefix`, `SkillsIndex`, `ChunkEnds`,
  `IndexSteps`, `Mishaps`, `StreamingReader`, `SplitIndexes`, `IndexDocuments`). The incremental
  reader is a class over its buffer; its answer for any split into chunks is compared with the
  answer for the whole text, and that one with a full decode. Two things can go wrong: a direct
  number of the top-level object is read short at a chunk end, or a character is hidden behind
  white space that fills chunks.
* **What an index says** (`JsonWriter`, `JsonRoundTrip`, `JsonGrammar`, `WrittenIndexes`,
  `LenientIndexes`). A writer that does not know the scanner spells documents as trees, with every
  escape, code unit, surrogate pair, number and white space that JSON allows. The scanner reads
  exactly these spellings, as what the trees stand for, and the reader exactly the texts of a
  looser grammar, in which commas are missing or too many.
* **Approvals** (`ApprovalLinks`, `ApprovalProtocol`, `ApprovalDeadlock`, `ApprovalCycles`,
  `ApprovalDeletions`, `ApprovalBoards`). One notion, the tasks an approval is about, underlies
  the link table and the older column. Create, update and delete requests are transactions that
  interleave between their reads, their row locks and their commits. Their waits for each other
  form a graph, and its cycles are the deadlocks. `ApprovalEffects` ties what their commits leave
  to what was asked for when they began.
* **Tasks and dependencies** (`DependencyGraph`, `TaskBoard`, `TaskSafety`, `TaskStore`). The
  handlers of leads, workers and users as methods over the stored tasks, each equal to a
  specification; safety, gates and timing are proved of the specification over all runs.
  `TaskOutcomes` says which requests are accepted, what they leave and why the others are refused.
* **Rate limiting** (`RateLimit`, `RateLimitRedis`). An unbounded log is the meaning; the bounded
  buckets with their sweeps and the sorted-set script both answer like it.
* **Event streams** (`EventStream`). Polling from a watermark with a bounded memory of sent ids.
* **Signing-key cache** (`KeyCache`, `KeyOutcomes`). Verifications that share a lock, a cooldown
  and a cache, and which tokens they let through.
* **Calendar buckets** (`Buckets`), **agent tokens** (`AgentTokens`), **custom fields**
  (`CustomFields`), **decisions** (`Decisions`, `DecisionOutcomes`) and **payload previews**
  (`Preview`).

Where the code and its own words differ, the model follows the code:

* the reader's white-space loop returns after any read that brought characters, so a chunk of
  white space can end a skip early, with reads of any one size (`BlankChunkBreaks`,
  `BlankStartBreaks`);
* a number is decoded from the text read so far, so a chunk end can cut it; white space at the
  start of a chunk sometimes prevents that (`ReadFile`, `CutNumberBreaks`, `SpacedNumberIsRead`);
* task rows are locked "in deterministic order", which keeps pending creates and updates from
  waiting for each other in a circle (`NoDeadlock`); the locks that writes themselves take follow
  no such order, and creates of resolved approvals and deletions do close circles
  (`CreatesCanDeadlock`, `DeletionInCycleIff`, `CirclesCanBeLong`), in which case the database has
  to abort one of them;
* a lead may give a task under way dependencies that are not done, and nothing resets it
  (`LeadUpdateIsSafeIff`, `LeadCanBlockActive`);
* "each task can have only one pending approval" is enforced per board; two boards can each have
  one for the same task, by a create or by restoring a resolved one (`StepKeepsOneOverallIff`,
  `TwoBoardsTwoPending`, `RestoreTwoPending`, `HomeRunsStayUnique`);
* the cooldown of key fetches holds between the clock readings taken before the lock, not between
  the fetches (`StartsAreCloseIff`, `FetchesCanBurst`);
* reconciling is said to reopen dependents that were done; it leaves done tasks alone
  (`OnlyOneHop`);
* starting a decision is called a no-op when repeated; two racing starts can still move the
  recorded time (`RacingStartsMoveTheTime`, `TimeMovesIff`);
* the direct reading of an index rejects entries that are not objects, which
  `_coerce_index_entries` would drop, and reads all `skills` keys (`ArrayDocument`, `ObjectDocument`).

## Model

| member | source | states |
|---|---|---|
| StreamingReader.ReadFile | backend/app/api/skills_marketplace.py:271-431 | for every split of a file into chunks: the answer is that of the whole text or a rejection, and it is that of the whole text if and only if the whole text is rejected or no direct number is read short and no character that the reader has to see is missed; if no inner chunk is blank, if and only if the whole text is rejected or no direct number is read short; where no chunk starts with white space, every number that a chunk end cuts after a digit is; what the whole text is read as is `AcceptedIffHolds`; reading terminates |
| StreamingReader.Reader.ReadTopLevelEntries | backend/app/api/skills_marketplace.py:341-354 | the same for one reader object from its start |
| Mishaps.ShortIsCut | backend/app/api/skills_marketplace.py:311-326 | a number that is read short is cut by a chunk end after its first digit |
| Mishaps.CutIsShort | backend/app/api/skills_marketplace.py:311-326 | where no chunk starts with white space, a cut direct number means that some number is read short |
| Mishaps.NothingMissedInside | backend/app/api/skills_marketplace.py:291-309 | in a file without a blank chunk inside no character is missed |
| Mishaps.HiddenIsMissed | backend/app/api/skills_marketplace.py:356-376 | a closing bracket behind a first chunk of `[` and white space, a blank chunk and more white space is missed |
| ChunkEnds.SpaceSparesCut | backend/app/api/skills_marketplace.py:297-326 | when the text read so far ends between the colon and the number, and the next chunk holds white space and the start of the number, the end of that chunk does not cut the number; exactly the later ones inside it do |
| SplitIndexes.CutNumberBreaks | backend/app/api/skills_marketplace.py:311-326 | for every plain key other than `skills` and every number of digits that the first chunk end splits, the index is accepted whole and rejected in chunks |
| SplitIndexes.SpacedNumberIsRead | backend/app/api/skills_marketplace.py:297-326 | split at the same digit, but with a chunk that ends at the colon and white space behind it, the index is read right |
| SplitIndexes.BlankChunkBreaks | backend/app/api/skills_marketplace.py:281-309 | for every string of white space of two or more characters there is an empty index, split as reads of that many characters split it, that is accepted whole and rejected in chunks |
| SplitIndexes.BlankStartBreaks | backend/app/api/skills_marketplace.py:341-354 | so is an empty index behind white space that fills two chunks and reaches into the third |
| SplitIndexes.BlankInKeyIsRead | backend/app/api/skills_marketplace.py:311-326 | a blank chunk inside a key changes nothing |
| StreamingReader.Reader.ReadArrayValues | backend/app/api/skills_marketplace.py:356-376 | entries read chunk by chunk are those of the whole text at that place, and the file is then read up to the chunk end that the specification names; an error means that the whole text fails there as well or that a bracket or comma is missed |
| StreamingReader.Reader.ReadSkillsFromObject | backend/app/api/skills_marketplace.py:378-431 | entries are returned only if nothing goes wrong, and are then those of the whole text; an error means that the whole text is rejected or that something went wrong |
| StreamingReader.Reader.DecodeValue | backend/app/api/skills_marketplace.py:311-326 | decoding with refills gives the value of the whole text, or a number cut short, exactly when a chunk end at or after the first attempt lies behind its first digit; it fails only where the whole text does |
| StreamingReader.Reader.SkipWhitespace | backend/app/api/skills_marketplace.py:297-309 | never skips anything but white space, skips all of it and reads nothing when a character is in sight, and otherwise reads one chunk and stops at its start |
| StreamingReader.Reader.FillBuffer | backend/app/api/skills_marketplace.py:281-289 | appends exactly the next chunk, up to the next chunk end of the file, or notes the end of the file |
| IndexSteps.OneChunkUncut | backend/app/api/skills_marketplace.py:341-431 | a text read in one chunk has no direct number cut |
| JsonPrefix.ValueGrow | backend/app/api/skills_marketplace.py:314-320 | a value decoded from a prefix, unless it is a number that the next character could continue, is decoded alike from the longer text |
| JsonPrefix.ValueShrink | backend/app/api/skills_marketplace.py:314-320 | a value of the longer text that ends inside the prefix is decoded alike from the prefix |
| IndexDocuments.ArrayDocument | backend/app/api/skills_marketplace.py:259-268 | a valid array document is read as its coerced entries if and only if all its items are objects, and rejected otherwise |
| IndexDocuments.ObjectDocument | backend/app/api/skills_marketplace.py:259-268 | a valid object document is read as all its `skills` arrays in order, and rejected exactly if one holds anything but objects or a `skills` value that is no array is not the last member; that agrees with coercing its decode if and only if it is not rejected and every `skills` value that another follows is an empty array |
| JsonRoundTrip.DocumentIsRead | backend/app/api/skills_marketplace.py:311-326 | every document of the JSON grammar, however it is spelled, before anything that does not go on with a number, is decoded as what it stands for, up to its end |
| JsonGrammar.ReadIffWritten | backend/app/api/skills_marketplace.py:311-326 | at any place of any text: what is decoded was the spelling of a document that stands for the value, and every such spelling, unless more of a number follows, is decoded |
| WrittenIndexes.WrittenIndex | backend/app/api/skills_marketplace.py:341-431 | a written document, with white space around it: a list of objects is read as these, an object as the objects of its `skills` lists in order or not at all, anything else not at all |
| WrittenIndexes.WrittenIsRead | backend/app/api/skills_marketplace.py:271-354 | the reader does so for every written document in one chunk |
| SkillsIndex.SpaceTable | backend/app/api/skills_marketplace.py:297-309 | the white space the reader skips is that of `str.isspace`, 29 characters, not only that of JSON |
| LenientIndexes.LooseArrayRead | backend/app/api/skills_marketplace.py:356-376 | objects with any white space and any commas around them, up to the bracket, are read as these objects |
| LenientIndexes.LooseMembersRead | backend/app/api/skills_marketplace.py:378-431 | members with at most one comma behind each, none behind a dropped `skills` value, are read as the entries of their `skills` lists |
| LenientIndexes.AcceptedIffHolds | backend/app/api/skills_marketplace.py:341-431 | the whole text is read as given entries if and only if it is white space, an index of that grammar with these entries, and anything |
| LenientIndexes.ReadHeld | backend/app/api/skills_marketplace.py:271-431 | a file in chunks is read as given entries if and only if its text holds them and nothing is read short or missed; in one chunk, if and only if it holds them |
| Dedup.Dedupe | backend/app/services/approval_task_links.py:75-82 | the loop keeps the first occurrence of each value |
| Dedup.DedupedMeaning | backend/app/services/task_dependencies.py:22-31 | the result has the same values without duplicates, and the same first value |
| Dedup.DedupedOrder | backend/app/services/task_dependencies.py:22-31 | values stand in the order of their first occurrences |
| ApprovalLinks.NormalizeTaskIds | backend/app/services/approval_task_links.py:62-82 | explicit, single and extracted ids merged in that order without duplicates, none lost |
| ApprovalLinks.LoadTaskIdsByApproval | backend/app/services/approval_task_links.py:85-106 | each requested approval with its links in insertion order |
| ApprovalLinks.ApprovalTaskIdsMap | backend/app/api/approvals.py:84-97 | shows for each approval exactly the tasks it is about |
| ApprovalLinks.PendingConflicts | backend/app/services/approval_task_links.py:144-205 | a requested task is in the map if and only if another pending approval of the board is about it; it maps to the first such row, links before column |
| ApprovalLinks.TaskCounts | backend/app/services/approval_task_links.py:208-274 | the keys are the requested tasks with any approval; the counts are those of all and of pending approvals about the task |
| ApprovalLinks.CountsAddUp | backend/app/services/approval_task_links.py:240-274 | linked and column-only approvals split the approvals about a task |
| ApprovalLinks.ConflictIffPendingCount | backend/app/services/approval_task_links.py:144-274 | a task has a conflict exactly when its pending count is positive |
| ApprovalLinks.ApprovedLinkedMeaning | backend/app/api/tasks.py:182-203 | while column and links are aligned, the approved-approval check finds an approval exactly if an approved one is about the task |
| ApprovalLinks.ApprovedLinkedDiffersIff | backend/app/api/tasks.py:182-203 | in any store the check and the other readers disagree about a task if and only if no approved approval is about it and the column of an approved one with other links names it |
| ApprovalLinks.CreateEffect | backend/app/api/approvals.py:399-428 | a created approval has the board and status sent, the first id as its column and exactly the ids sent as links, alignment stays, and other approvals do not change |
| ApprovalLinks.ReplaceApprovalTaskLinks | backend/app/services/approval_task_links.py:109-122 | the approval's links are replaced, the others stay in order |
| ApprovalLinks.DeleteTaskRows | backend/app/api/tasks.py:1670-1688 | the loop over primary approvals leaves the tables as specified |
| ApprovalLinks.DeleteEffect | backend/app/api/tasks.py:1670-1688 | an approval disappears exactly when its column named the task and it was about nothing else; a survivor is about what it was before, less the task, with board and status kept, and a column that named the task has the first of them |
| ApprovalLinks.DeleteKeepsAligned | backend/app/api/tasks.py:1670-1688 | deletion keeps column and links aligned |
| ApprovalLinks.DeleteKeepsRefs | backend/app/api/tasks.py:1670-1711 | after a deletion nothing refers to the task |
| ApprovalLinks.DeletedTaskIsForgotten | backend/app/api/tasks.py:1670-1688 | no approval is about the deleted task, and every other task keeps exactly its approvals |
| ApprovalProtocol.EveryRunIsSafe | backend/app/api/approvals.py:399-470 | over every interleaving of creates, updates, deletes and aborts, with the row locks each takes: one pending approval at most per board and task, alignment, no dangling reference |
| ApprovalProtocol.StepKeeps | backend/app/api/approvals.py:169-190 | every single step of any transaction keeps the whole invariant |
| ApprovalProtocol.CreateOnePending | backend/app/api/approvals.py:405-428 | the commit of a create that passed its check under locks leaves one pending approval per task |
| ApprovalProtocol.StatusOnePending | backend/app/api/approvals.py:450-470 | so does the commit of an update, whether it restores pending under locks or writes without a check; what it stores is `CommitsDoWhatWasAsked` |
| ApprovalProtocol.DeleteIsAtomic | backend/app/api/tasks.py:1670-1711 | a deletion that works from stale reads and commits has the effect of deleting the task at that moment |
| ApprovalEffects.CommitsDoWhatWasAsked | backend/app/api/approvals.py:399-470 | over every interleaving, by what the request asked for when it began: an update gives its approval exactly the target status and leaves its board, column and links and every other approval alone; one that asks for the status it found writes nothing; a create adds the approval with its board, status, column and links if its tasks are there; a deletion takes the task or is rolled back |
| ApprovalEffects.StatusChangesAsAsked | backend/app/api/approvals.py:450-470 | over every interleaving: the status of an approval changes by nothing but the commit of an update for it with that target |
| ApprovalEffects.ApprovalsAppearAsAsked | backend/app/api/approvals.py:399-428 | over every interleaving: an approval appears by nothing but the commit of a create for it |
| ApprovalEffects.CheckOutcome | backend/app/api/approvals.py:169-190 | the conflict check ends a request if and only if another approval of its board is pending about one of its tasks |
| ApprovalEffects.LoneResolve | backend/app/api/approvals.py:433-470 | with no other request under way an approval can be given any resolved status that it does not have, and nothing else changes |
| ApprovalDeadlock.GoesIffNoWait | backend/app/services/approval_task_links.py:125-141 | a running transaction can take its next step exactly when no other holds a lock that clashes with the one it needs |
| ApprovalDeadlock.StuckIffCycle | backend/app/services/approval_task_links.py:125-141 | there are transactions that only wait for each other if and only if the graph of waits has a cycle |
| ApprovalDeadlock.StuckStays | backend/app/services/approval_task_links.py:125-141 | they stay so under every step of every request, until one of them gives up |
| ApprovalDeadlock.EveryRequestEnds | backend/app/api/approvals.py:399-470 | without new requests a run is no longer than the work left, and where no step is possible all requests have ended if and only if the waits have no cycle |
| ApprovalDeadlock.CycleIsUndisciplined | backend/app/services/approval_task_links.py:109-141 | every cycle of waits goes through a create of a resolved approval whose tasks are not in ascending order, or through a deletion of a task that an approval's column named |
| ApprovalDeadlock.NoDeadlock | backend/app/services/approval_task_links.py:125-141 | so among pending creates, updates, creates in ascending order and other deletions the waits have no cycle |
| ApprovalDeadlock.DisciplinedRunsGoOn | backend/app/services/approval_task_links.py:125-141 | over every run of such requests some running transaction can always take its next step |
| ApprovalCycles.CreatesCanDeadlock | backend/app/services/approval_task_links.py:109-141 | for every list of tasks not in ascending order: from every quiet state a resolved create with it and a pending create can come to wait for each other |
| ApprovalCycles.RestoreAndDeleteCanDeadlock | backend/app/api/tasks.py:1670-1711 | for every task that some approval's column names: when the first approval whose row the deletion locks can be restored, restoring it and deleting the task can come to wait for each other, whether it moves on to another task or goes |
| ApprovalDeletions.DeletionInCycleIff | backend/app/api/tasks.py:1670-1711 | from every quiet state a deletion can end up in a cycle of waits if and only if the column of some approval names its task |
| ApprovalCycles.CirclesCanBeLong | backend/app/services/approval_task_links.py:109-141 | a cycle of four creates is reached in which no two wait for each other |
| ApprovalBoards.LoneCreate | backend/app/api/approvals.py:399-428 | alone, a pending create for a task free on its board commits |
| ApprovalBoards.StepKeepsOneOverallIff | backend/app/api/approvals.py:399-470 | one pending approval per task across boards is kept by a step if and only if it is not the commit of a pending create, or of a restore, while another approval on any board is pending for one of its tasks |
| ApprovalBoards.CreateKeepsOneOverall | backend/app/services/approval_task_links.py:162-169 | of a create: it keeps that unless it commits as pending while some board has a pending one for its tasks |
| ApprovalBoards.RestoreKeepsOneOverall | backend/app/api/approvals.py:450-470 | of a restore: it keeps that if and only if no other approval on any board is pending for the tasks it is about |
| ApprovalBoards.TwoBoardsTwoPending | backend/app/services/approval_task_links.py:162-169 | from every quiet state a task free on two boards can become pending on both |
| ApprovalBoards.RestoreTwoPending | backend/app/api/approvals.py:450-470 | from every quiet state a resolved approval without a conflict on its board can become pending again beside a pending one of another board for one of its tasks |
| ApprovalBoards.HomeRunsStayUnique | backend/app/api/approvals.py:399-428 | when requests name only tasks of their own board, a task never has two pending approvals at all |
| DependencyGraph.CycleFinder.Dfs | backend/app/services/task_dependencies.py:116-127 | the search reports a path that meets itself, or leaves an order in which edges lead backwards |
| DependencyGraph.HasCycle | backend/app/services/task_dependencies.py:111-129 | answers true if and only if a path from one of the nodes repeats a node |
| DependencyGraph.ValidateDependencyUpdate | backend/app/services/task_dependencies.py:132-193 | refuses self-dependency, foreign tasks and cycles with their codes, in that order, and otherwise returns the ids without duplicates |
| DependencyGraph.CyclicIffReachesBack | backend/app/services/task_dependencies.py:167-191 | an edit of an acyclic graph closes a cycle exactly when a new dependency already leads back to the task |
| DependencyGraph.EditKeepsAcyclic | backend/app/services/task_dependencies.py:196-225 | an accepted edit keeps the graph acyclic and on the board |
| DependencyGraph.RemovalKeepsAcyclic | backend/app/api/tasks.py:1689-1697 | so does removing a task's rows in both directions |
| DependencyGraph.SomeTaskIsUnblocked | backend/app/services/task_dependencies.py:76-82 | in an acyclic graph, among any tasks one depends on none of them |
| TaskSafety.RunsStaySafe | backend/app/api/tasks.py:1587-1648 | over every run in which no lead makes the unguarded edit, every task in progress or review has all dependencies done |
| TaskSafety.StepKeepsSafe | backend/app/api/tasks.py:2346-2499 | each create, update, delete or outside change keeps that |
| TaskSafety.StoredIsSafe | backend/app/api/tasks.py:456-534 | resetting only the direct dependents of a reopened task is enough |
| TaskSafety.LeadUpdateIsSafeIff | backend/app/api/tasks.py:2253-2336 | a lead's accepted update keeps safety if and only if it does not give a task in progress or review a dependency that is not done |
| TaskSafety.LeadCanBlockActive | backend/app/api/tasks.py:2270-2278 | that edit is accepted for every such task and every unfinished task that does not lead back to it |
| TaskSafety.OnlyOneHop | backend/app/api/tasks.py:471-506 | an update changes the task and, if it reopens it, resets exactly its direct dependents that are not done |
| TaskSafety.DoneOnlyThroughGates | backend/app/api/tasks.py:220-260 | a task enters done only with its dependencies done, the approval rule off or met and the review rule off or met; no other task enters done on the way |
| TaskSafety.DoneHasAReason | backend/app/api/tasks.py:2660-2687 | over every run: what is done was done at the start, was created done, or passed the gates in some step |
| TaskSafety.PendingApprovalBlocks | backend/app/api/tasks.py:276-301 | with the rule on, a requested status change does not get past a pending approval |
| TaskSafety.RunsStayTimed | backend/app/api/tasks.py:2415-2489 | over every run, tasks in inbox and review have no running clock |
| TaskSafety.RunsKeepGraph | backend/app/api/tasks.py:1508-1546 | over every run dependencies stay on the board and acyclic |
| TaskSafety.UpdateKeepsTimed | backend/app/api/tasks.py:2192-2200 | every accepted update keeps clocks stopped in inbox and review |
| TaskSafety.StepKeepsGraph | backend/app/api/tasks.py:1508-1546 | every step keeps dependencies on the board and acyclic |
| TaskSafety.SomeTaskCanStart | backend/app/services/task_dependencies.py:76-108 | while tasks remain undone, one of them is not blocked |
| TaskOutcomes.StatusAsAsked | backend/app/api/tasks.py:1587-1648 | an accepted request of any actor leaves exactly the status it asks for, or the old one if it asks for none, except that a user's request that leaves a task waiting puts it in the inbox |
| TaskOutcomes.WorkerOutcome | backend/app/api/tasks.py:2419-2426 | status, holder and clocks after a worker's request: the worker holds what it starts or finishes, nobody the inbox, the lead the review; starting sets the clock, a pause keeps its reading |
| TaskOutcomes.UserOutcome | backend/app/api/tasks.py:2468-2499 | the same after a user's request, with the agent given, and everything cleared when the task goes back |
| TaskOutcomes.LeadOutcome | backend/app/api/tasks.py:2253-2336 | the same after a lead's request: rework goes to the worker who sent the task to review and stops its clock; no other clock changes |
| TaskOutcomes.RestOfBoard | backend/app/api/tasks.py:1587-1648 | nothing else on the board changes but the dependencies named and unfinished dependents of a reopened task |
| TaskOutcomes.StatusMoves | backend/app/api/tasks.py:456-534 | whatever happens on the board, a status changes only by an accepted request for that task, or to the inbox because a dependency is reopened |
| TaskOutcomes.WorkerAcceptedIff | backend/app/api/tasks.py:2346-2426 | a worker's request is accepted if and only if the worker may make it, the task waits for nothing or only goes back, the rules let it pass and a review comes with a comment |
| TaskOutcomes.UserAcceptedIff | backend/app/api/tasks.py:2429-2499 | the same condition for a user, with access, tags, new dependencies and the agent given |
| TaskOutcomes.LeadAcceptedIff | backend/app/api/tasks.py:2253-2336 | the same condition for a lead, with the three moves that leads make |
| TaskOutcomes.WorkerRefusedWith | backend/app/api/tasks.py:2346-2426 | which code a refused request of a worker gets, by what is wrong with it |
| TaskOutcomes.UserRefusedWith | backend/app/api/tasks.py:2429-2499 | which code a refused request of a user gets |
| TaskOutcomes.LeadRefusedWith | backend/app/api/tasks.py:2253-2336 | which code a refused request of a lead gets |
| TaskOutcomes.CreatedIff | backend/app/api/tasks.py:1491-1552 | a task is created if and only if its dependencies are on the board, one that waits starts unassigned in the inbox, and its agent fits |
| TaskOutcomes.CreatedOutcome | backend/app/api/tasks.py:1491-1552 | the new task has the status and agent asked for, no clocks and the dependencies named; nothing else changes |
| TaskOutcomes.DeletedOutcome | backend/app/api/tasks.py:1651-1711 | the task goes, and with it its name from every list of dependencies; other tasks stay as they are |
| TaskStore.Store.UpdateTask | backend/app/api/tasks.py:1587-1648 | an update by any actor takes the specified effect, or is refused with the specified code and changes nothing; effect, refusals and codes are those of `TaskOutcomes` |
| TaskStore.Store.LeadUpdate | backend/app/api/tasks.py:2253-2343 | the lead's path, in the order of its guards |
| TaskStore.Store.WorkerUpdate | backend/app/api/tasks.py:2346-2426 | the worker's path up to the shared end; what it leaves is `TaskOutcomes.WorkerOutcome` |
| TaskStore.Store.UserUpdate | backend/app/api/tasks.py:2429-2499 | the user's path, with the reset of blocked tasks |
| TaskStore.Store.Finalize | backend/app/api/tasks.py:2660-2747 | the shared end: gates, review comment, hand-over to the lead, reconciliation |
| TaskStore.Store.ReconcileDependents | backend/app/api/tasks.py:456-534 | the loop resets exactly the direct dependents of a reopened task that are not done |
| TaskStore.Store.BlockedIds | backend/app/services/task_dependencies.py:76-108 | the dependencies that are missing or not done; none exactly when the task is not blocked |
| TaskStore.Store.CreateTask | backend/app/api/tasks.py:1491-1552 | creation by a user takes the specified effect or is refused |
| TaskStore.Store.CheckAssignment | backend/app/api/agent.py:834-844 | passes exactly an agent that exists, is no lead unless leads are allowed, and is on no other board; otherwise the code tells which of the three failed first |
| TaskStore.Store.DeleteTask | backend/app/api/tasks.py:1651-1711 | the task goes with its dependency rows both ways, and approvals move on |
| RateLimit.InMemoryRateLimiter.IsAllowed | backend/app/core/rate_limit.py:88-115 | allowed exactly when fewer than the maximum of earlier attempts on the key, allowed or refused, lie in the window; buckets hold at most the maximum; bucket keys exceed those live at the last sweep by at most 128 |
| RateLimit.AllowsIff | backend/app/core/rate_limit.py:103-115 | an attempt is allowed if and only if fewer than the maximum of attempts on the key are younger than the window |
| RateLimit.BucketAnswers | backend/app/core/rate_limit.py:103-115 | a pruned bucket is full exactly when the log has that many attempts in the window |
| RateLimit.SweepKeepsLive | backend/app/core/rate_limit.py:80-86 | a sweep leaves exactly the keys with an attempt in the window |
| RateLimit.SweepKeepsBuckets | backend/app/core/rate_limit.py:80-86 | a sweep changes no later answer |
| RateLimitRedis.RedisRateLimiter.IsAllowed | backend/app/core/rate_limit.py:143-173 | the script answers like the log |
| RateLimitRedis.ScriptAnswers | backend/app/core/rate_limit.py:31-47 | pruning by score, dropping the lowest entry and adding at the end keep the latest attempts |
| RateLimitRedis.ExpiryIsHarmless | backend/app/core/rate_limit.py:161-161 | a key that expires int(window)+1 seconds after its last attempt held nothing in the window |
| RateLimitRedis.RunBoth | backend/app/core/rate_limit.py:70-173 | on every sequence of calls with the same clock both limiters give the same answers |
| RateLimitRedis.AllowedSpanWindow | backend/app/core/rate_limit.py:88-115 | any maximum-plus-one allowed attempts on a key span at least the window |
| EventStream.Stream.Poll | backend/app/api/tasks.py:1421-1439 | one poll of the loop sends what the specification of sent events says, and keeps the queue, set and watermark in step with it |
| EventStream.StreamEvents | backend/app/api/activity.py:353-389 | the generator, with its memory of 2000 ids, sends what the specification says over all polls |
| EventStream.PollSendsTheNew | backend/app/api/tasks.py:1421-1429 | a poll sends exactly the rows not sent before, once each, in order, although only the last ids are remembered |
| EventStream.ExactlyOnce | backend/app/api/tasks.py:1397-1440 | over every run of polls without late events: what was sent is distinct, ordered by time, and exactly the events visible so far from the start of the stream on |
| EventStream.PolledIffAtWatermark | backend/app/api/tasks.py:552-553 | a poll that sees an unsent event sends it if and only if it is not older than the watermark |
| EventStream.LateIsLost | backend/app/api/tasks.py:552-553 | an unsent event older than the watermark is never sent |
| EventStream.QuietIffRemembered | backend/app/api/tasks.py:1426-1428 | polling again with nothing new repeats nothing if and only if the events of the last instant are no more than the memory |
| KeyCache.EveryRunIsSafe | backend/app/core/cf_access.py:97-179 | over every interleaving: fetch readings are a cooldown apart, the cache is empty or one whole fetch and never empties again, accepted claims were decoded under a fetched key with the token's key id and have an allowed email; that such tokens are accepted is `KeyOutcomes` |
| KeyCache.StepKeeps | backend/app/core/cf_access.py:97-221 | every step of any verification keeps that |
| KeyCache.KeysChangeWhole | backend/app/core/cf_access.py:111-125 | only a successful fetch changes the keys, and it installs its whole result |
| KeyCache.FetchesAreFew | backend/app/core/cf_access.py:106-111 | readings that span L hold at most floor(L/cooldown)+1 fetches |
| KeyCache.StartsAreCloseIff | backend/app/core/cf_access.py:104-113 | two fetches in a row start closer than the cooldown if and only if the first waited for the lock longer than the second by more than their readings exceed the cooldown, so never after one that did not wait |
| KeyCache.FetchesCanBurst | backend/app/core/cf_access.py:104-125 | for every n there is a run in which n fetches start at the same instant |
| KeyCache.TooEarlyToFetch | backend/app/core/cf_access.py:106-110 | until the clock reaches the cooldown nothing is fetched and a cold cache accepts nothing |
| KeyOutcomes.BeginOutcome | backend/app/core/cf_access.py:127-166 | with keys younger than their time to live a token is answered at once, and accepted if and only if the keys hold its key and it decodes under that to claims with an allowed email; with none or old ones it asks for a refresh; each rejection has its own condition |
| KeyOutcomes.AcquireOutcome | backend/app/core/cf_access.py:104-113 | the lock's holder fetches if and only if its reading is a cooldown behind the last recorded one; else it settles with the cache as it is |
| KeyOutcomes.FetchOutcome | backend/app/core/cf_access.py:111-179 | a fetch replaces and dates the keys or leaves them; its verification is accepted if and only if the keys it then looks into prove the token: the cache after a cold start or an expiry, its own fetch after a miss or a wrong signature |
| KeyOutcomes.CancelOutcome | backend/app/core/cf_access.py:107-125 | a verification that is given up gives back the lock if it held it; keys, dates and readings stay |
| KeyOutcomes.ColdStartAccepts | backend/app/core/cf_access.py:127-179 | a whole verification from an empty cache lets the token through if and only if the fetched keys prove it |
| KeyOutcomes.OldKeysAccept | backend/app/core/cf_access.py:127-141 | when the refresh fails, keys out of date still let through exactly what they prove |
| KeyOutcomes.RotationAccepts | backend/app/core/cf_access.py:155-179 | after a miss or a wrong signature the token is let through if and only if the new fetch proves it |
| Buckets.BuildBuckets | backend/app/api/metrics.py:120-126 | the loop terminates with the specified list |
| Buckets.BucketsTile | backend/app/api/metrics.py:94-126 | the list is strictly increasing, and its members are exactly the buckets of the instants from start to end |
| Buckets.InBucketIff | backend/app/api/metrics.py:94-117 | an instant truncates to an aligned start if and only if it lies from that start up to the next; the next start is later and aligned |
| Buckets.StartHolds | backend/app/api/metrics.py:94-102 | truncation gives an aligned start whose bucket holds the instant |
| Buckets.PointsAddUp | backend/app/api/metrics.py:129-141 | the points sum to the number of rows counted |
| Buckets.QueryThroughput | backend/app/api/metrics.py:167-186 | every point is the count of its bucket, and together they are the rows the query counts |
| Buckets.PointCountsRows | backend/app/api/metrics.py:167-186 | a point is the number of finished tasks of the boards updated within the range and within the bucket |
| Buckets.EpochIsThursday | backend/app/api/metrics.py:98-99 | the first of January 1970 has its ordinal, and is a Thursday |
| Buckets.OrderIsCalendarOrder | backend/app/api/metrics.py:123-123 | comparing dates field by field is comparing instants, leap years included |
| AgentTokens.RoundTrip | backend/app/core/agent_tokens.py:19-25 | decoding the unpadded encoding gives the bytes back, for all byte strings |
| AgentTokens.EncodeIsUnpadded | backend/app/core/agent_tokens.py:19-20 | stripping leaves only symbols of the alphabet, so no `$`, in the expected number |
| AgentTokens.EncodingIsBase64 | backend/app/core/agent_tokens.py:19-20 | each character is the symbol that the table of RFC 4648 has for its six bits of the bytes |
| AgentTokens.HashHasFourParts | backend/app/core/agent_tokens.py:28-38 | a produced hash splits into its four parts |
| AgentTokens.VerifyMeansSameDigest | backend/app/core/agent_tokens.py:35-55 | a hash verifies a token exactly when both derive the same digest; its own always |
| CustomFields.FieldStore.SetForCreate | backend/app/api/tasks.py:1070-1112 | refused exactly for unknown keys, invalid values or missing required fields; else every value that is not null gets a row |
| CustomFields.FieldStore.SetForUpdate | backend/app/api/tasks.py:1115-1174 | refused for the same reasons; else exactly the sent values are written, a null deletes |
| CustomFields.FieldStore.ReadTask | backend/app/api/tasks.py:1177-1221 | reads the total map that rows and defaults stand for |
| CustomFields.FieldStore.Check | backend/app/api/tasks.py:988-1048 | the three checks together are the refusal condition |
| CustomFields.AcceptedIff | backend/app/api/tasks.py:988-1048 | a request is accepted if and only if it names fields of the board, each takes the value sent by its kind, and no required field is left null |
| CustomFields.TakesMeaning | backend/app/schemas/task_custom_fields.py:307-361 | validation by field type is a table by the kind of the value |
| CustomFields.ReadWritten | backend/app/api/tasks.py:1115-1221 | after an update a field reads as the value sent, the default for null, and as before elsewhere; other tasks are untouched |
| CustomFields.ReadAfterCreate | backend/app/api/tasks.py:1070-1221 | after a create likewise, with the default elsewhere |
| CustomFields.RequestIsOk | backend/app/schemas/task_custom_fields.py:307-377 | an accepted request leaves required fields non-null and every read valid for its definition |
| CustomFields.ServeRequests | backend/app/api/tasks.py:1070-1174 | so it is over every sequence of requests, for all tasks |
| Decisions.DecisionsAreFinal | backend/app/api/caio.py:317-515 | over every interleaving: decision and ids of a row never change, times never return to null and only approvals have them, all replies about an event carry the same decision; that it was asked for is `EveryAnswerWasAsked` |
| Decisions.StepKeeps | backend/app/api/caio.py:317-499 | every step keeps that |
| Decisions.TimeMovesIff | backend/app/api/caio.py:409-434 | a recorded start time changes exactly when a start that read the row before it was recorded writes later, at another time |
| Decisions.RacingStartsMoveTheTime | backend/app/api/caio.py:409-434 | two starts that both read first leave the time of the second |
| DecisionOutcomes.EveryAnswerWasAsked | backend/app/api/caio.py:317-367 | over every run from the empty table: each row has the decision and ids of a decide request that began for its event; a decide request that is answered gets the decision it asked for, which is the recorded one, with no other message id; a start or completion that is answered leaves the event approved with its time recorded |
| DecisionOutcomes.InsertOutcome | backend/app/api/caio.py:317-341 | the first decision to arrive is recorded and answered as asked; a later one changes nothing |
| DecisionOutcomes.RereadOutcome | backend/app/api/caio.py:342-367 | a later one fails if and only if the recorded decision is another or both have message ids and those differ |
| DecisionOutcomes.ReadOutcome | backend/app/api/caio.py:401-434 | a start or completion fails unless the event is approved, is answered when its time is there, and else goes on to write it |
| DecisionOutcomes.RecordedAfter | backend/app/api/caio.py:409-434 | a step changes nothing that is recorded but the one time that a write sets, and that to the writer's clock |
| DecisionOutcomes.LoneMarkIsRecorded | backend/app/api/caio.py:409-434 | with nothing racing, the first start or completion records its own clock reading |
| DecisionOutcomes.LaterMarkChangesNothing | backend/app/api/caio.py:409-434 | a later one is answered without a change |
| Preview.PreviewWithLimit | backend/app/api/agent.py:182-218 | for every chunking and limit the early stop gives the preview and flag of the full text, which is the text within the limit and else its beginning cut to the limit with three dots; a failing encoder is noticed exactly if its chunks fit in one character more than the limit |
| Preview.KeepChunks | backend/app/api/agent.py:191-209 | the loop keeps the text, or its first limit+1 characters |

## Left out

- Gateway dispatch, notifications, wake-ups, activity messages and logging: effects that do not feed back into the modelled state.
- SQL and the ORM: tables are maps, sets and sequences, a query is its meaning; foreign keys and the unique keys that matter are modelled as commits that fail.
- ApprovalDeadlock.NoDeadlock: covers the locks on tasks, approvals and links that approval requests and task deletions take; not those of task updates and other endpoints, nor the shared locks on rows of boards and agents.
- ApprovalDeadlock.EveryRequestEnds: the database's deadlock detection appears as a transaction giving up; when it does so is not modelled.
- ApprovalProtocol.DeleteIsAtomic: the deletion of a task's links and the reading of what remains are one step; the two statements run back to back.
- ApprovalLinks.LoadTaskIdsByApproval: links created at the same instant are taken in insertion order.
- ApprovalLinks.NormalizeTaskIds: the ids found in an approval's payload are an input; the aliases and UUID parsing are not modelled.
- TaskStore.Store.UpdateTask: one request is one atomic step; titles, priorities and due dates count only as other fields; tags and custom fields count as sent and refused or not; the comment log and the worker a review came from are inputs.
- TaskStore.Store.DeleteTask: access checks, tags, fingerprints and stored values of the task are not modelled.
- TaskStore.Store.CreateTask: the access checks of users and leads come before and are not modelled.
- Users and agents being deleted while tasks name them.
- ApprovalProtocol with the modules built on it, KeyCache and Decisions are transition systems over values, since their claims are about interleaved steps; the in-place updates inside one handler are single steps there.
- Text of the index is a sequence of characters; the recursion and integer-length limits of the decoder, and opening the file, are not modelled.
- IndexDocuments.ObjectDocument: documents are decoded to members in order, a later key winning on lookup; numbers keep no value.
- RateLimit.InMemoryRateLimiter.IsAllowed: needs a maximum of at least one, since with zero the code takes from an empty deque and raises; clocks do not run backwards; threads are serialized by the lock; times are real numbers.
- RateLimitRedis.RedisRateLimiter.IsAllowed: redis is reachable, expiry is seen on the clock the calls carry, and members do not repeat.
- EventStream.ExactlyOnce: assumes what it names, bounded instants and no late events; what happens without them is `QuietIffRemembered`, `PolledIffAtWatermark` and `LateIsLost`.
- KeyCache: token decoding, claims and the network are functions given to the model; failed decodings are told apart only as wrong signature or invalid.
- Buckets.QueryThroughput: `date_trunc` in the database is taken to be the same truncation; years outside 1 to 9999 do not overflow here.
- AgentTokens.VerifyMeansSameDigest: key derivation is a function given to the model, and texts are ASCII digits where Python's `int` takes more spellings.
- CustomFields.ServeRequests: definitions are fixed; regular expressions, dates and URLs are predicates given to the model.
- Decisions: rows are not deleted; the deciding user and the note are not modelled.
- Preview.PreviewWithLimit: limits are not negative.
- Board and group memory streams, repository fetching, the other bridges, schema documentation and the frontend.
