/**
 Tasks of one board: their status, assignment and timing, the three kinds of actors that
 change them, and the guards of each. A request is one step that either takes effect as a
 whole or is refused and changes nothing.
 */
module TaskBoard {
  import opened Prelude
  import G = DependencyGraph
  import A = ApprovalLinks

  type TaskId = nat
  type AgentId = nat
  type BoardId = nat
  type Time = int

  datatype Status = Inbox | InProgress | Review | Done

  datatype Task = Task(status: Status, assignee: Option<AgentId>,
                       inProgressAt: Option<Time>, previousInProgressAt: Option<Time>)

  datatype Agent = Agent(board: Option<BoardId>, isLead: bool)

  datatype Rules = Rules(approvalForDone: bool, reviewBeforeDone: bool, commentForReview: bool,
                         blockWithPending: bool, onlyLeadChangesStatus: bool)

  // Approvals span boards; the agents are all agents there are.
  datatype Board = Board(id: BoardId, tasks: map<TaskId, Task>, deps: G.Deps,
                         approvals: A.Store, agents: map<AgentId, Agent>, rules: Rules)

  datatype Actor = Lead | Worker(agent: AgentId, board: Option<BoardId>) | User

  // What a request sets. A null assignment is Some(None). Tags and custom fields are checked
  // elsewhere: what counts here is whether they were sent and whether they are refused.
  datatype Update = Update(status: Option<Status>, assignee: Option<Option<AgentId>>, otherFields: bool,
                           comment: bool, dependsOn: Option<seq<TaskId>>,
                           tags: Option<Option<nat>>, fields: Option<Option<nat>>)

  // What a request reads besides the board: the clock, the worker who last moved the task to
  // review, the lead a review goes to, whether an agent has commented since a given time, and
  // whether a user may write to the board.
  datatype Context = Context(now: Time, mover: Option<AgentId>, boardLead: Option<AgentId>,
                             commented: (AgentId, Time) -> bool, access: Option<nat>)

  // ---------- dependencies ----------

  predicate IsDone(b: Board, t: TaskId) {
    t in b.tasks && b.tasks[t].status == Done
  }

  predicate BlockedBy(b: Board, ids: seq<TaskId>) {
    exists d :: d in ids && !IsDone(b, d)
  }

  predicate DependsOn(b: Board, x: TaskId, t: TaskId) {
    t in G.DepIds(b.deps, x)
  }

  // Dependencies as the request leaves them, or why it may not.
  ghost function NewDeps(b: Board, t: TaskId, u: Update): Response<seq<TaskId>>
    requires t in b.tasks
  {
    if u.dependsOn.None? then Ok(G.DepIds(b.deps, t))
    else if b.tasks[t].status == Done then Refused(CONFLICT)
    else G.Validated(b.tasks.Keys, b.deps, t, u.dependsOn.value)
  }

  ghost function DepsLeft(b: Board, t: TaskId, u: Update): seq<TaskId>
    requires t in b.tasks
  {
    if NewDeps(b, t, u).Ok? then NewDeps(b, t, u).value else G.DepIds(b.deps, t)
  }

  // ---------- gates on a changed status ----------

  function PendingLinked(b: Board, t: TaskId): bool {
    exists a :: a in b.approvals.approvals && A.PendingFor(b.approvals, b.id, a, t)
  }

  // The refusal of a status change by the board's rules, in the order they are tried.
  function GateRefusal(b: Board, t: TaskId, u: Update, previous: Status, target: Status): Option<nat> {
    if u.status.Some? && u.status.value != previous && previous != target && b.rules.blockWithPending && PendingLinked(b, t)
    then Some(CONFLICT)
    else if previous == Done || target != Done then None
    else if b.rules.reviewBeforeDone && previous != Review then Some(CONFLICT)
    else if b.rules.approvalForDone && !A.ApprovedLinked(b.approvals, b.id, t) then Some(CONFLICT)
    else None
  }

  // ---------- assignments ----------

  function AssignmentRefusal(b: Board, who: Option<AgentId>, leadsAllowed: bool): Option<nat> {
    if who.None? then None
    else if who.value !in b.agents then Some(NOT_FOUND)
    else if b.agents[who.value].isLead && !leadsAllowed then Some(FORBIDDEN)
    else if b.agents[who.value].board.Some? && b.agents[who.value].board.value != b.id then Some(CONFLICT)
    else None
  }

  function Given(u: Update): Option<AgentId> {
    if u.assignee.Some? then u.assignee.value else None
  }

  // ---------- leads ----------

  function LeadStatusRefusal(current: Status, u: Update): Option<nat> {
    if u.status.None? then None
    else if current != Review then
      if current == Inbox && u.status.value == InProgress && Given(u).Some? then None else Some(FORBIDDEN)
    else if u.status.value != Done && u.status.value != Inbox then Some(FORBIDDEN)
    else None
  }

  function LeadTask(task: Task, u: Update, c: Context): Task {
    var handed := if u.assignee.Some? then task.(assignee := u.assignee.value) else task;
    if u.status.None? then handed
    else if task.status == Review && u.status.value == Inbox
    then handed.(status := Inbox, assignee := c.mover, inProgressAt := None)
    else handed.(status := u.status.value)
  }

  ghost function LeadRefusal(b: Board, t: TaskId, u: Update, c: Context): Option<nat>
    requires t in b.tasks
  {
    var task, deps := b.tasks[t], NewDeps(b, t, u);
    if u.comment || u.otherFields then Some(FORBIDDEN)
    else if deps.Refused? then Some(deps.code)
    else if u.tags.Some? && u.tags.value.Some? then u.tags.value
    else if BlockedBy(b, deps.value) && (u.assignee.Some? || u.status.Some?) then Some(CONFLICT)
    else if AssignmentRefusal(b, Given(u), false).Some? then AssignmentRefusal(b, Given(u), false)
    else if LeadStatusRefusal(task.status, u).Some? then LeadStatusRefusal(task.status, u)
    else
      var gate := GateRefusal(b, t, u, task.status, LeadTask(task, u, c).status);
      if gate.Some? then gate else if u.fields.Some? then u.fields.value else None
  }

  // ---------- workers and users share the end of an update ----------

  // A task sent to review goes to the board's lead.
  function SentToReview(task: Task, previous: Status, c: Context): Task {
    if task.status == Review && previous != Review && c.boardLead.Some? then task.(assignee := c.boardLead) else task
  }

  // Review may need a comment, in the request or since the work began.
  function NeedsComment(b: Board, before: Task, task: Task, asked: Option<Status>, u: Update, c: Context): bool {
    && asked == Some(Review) && b.rules.commentForReview && !u.comment
    && var author := if task.assignee.Some? then task.assignee else before.assignee;
       var since := if task.previousInProgressAt.Some? then task.previousInProgressAt else before.inProgressAt;
       author.None? || since.None? || !c.commented(author.value, since.value)
  }

  // `asked` is the status the update carries at its end, which a reset has changed.
  function EndRefusal(b: Board, t: TaskId, task: Task, asked: Option<Status>, u: Update, c: Context): Option<nat>
    requires t in b.tasks
  {
    var before := b.tasks[t];
    var gate := GateRefusal(b, t, u, before.status, task.status);
    if gate.Some? then gate
    else if NeedsComment(b, before, task, asked, u, c) then Some(UNPROCESSABLE)
    else if u.fields.Some? then u.fields.value
    else None
  }

  function Paused(task: Task, status: Status): Task {
    task.(status := status, assignee := None, previousInProgressAt := task.inProgressAt, inProgressAt := None)
  }

  // ---------- workers ----------

  function WorkerTask(task: Task, agent: AgentId, u: Update, c: Context): Task {
    if u.status.None? then task
    else match u.status.value {
           case Inbox => Paused(task, Inbox)
           case Review => Paused(task, Review)
           case InProgress => task.(status := InProgress, assignee := Some(agent), inProgressAt := Some(c.now))
           case Done => task.(status := Done, assignee := Some(agent))
         }
  }

  function WorkerRefusal(b: Board, agent: AgentId, board: Option<BoardId>, t: TaskId, u: Update,
                         c: Context): Option<nat>
    requires t in b.tasks
  {
    var task := b.tasks[t];
    if board.Some? && board.value != b.id then Some(FORBIDDEN)
    else if task.assignee.Some? && task.assignee.value != agent && u.status.Some? then Some(FORBIDDEN)
    else if u.dependsOn.Some? || u.tags.Some? || u.assignee.Some? || u.otherFields then Some(FORBIDDEN)
    else if u.status.Some? && b.rules.onlyLeadChangesStatus then Some(FORBIDDEN)
    else if u.status.Some? && u.status.value != Inbox && BlockedBy(b, G.DepIds(b.deps, t)) then Some(CONFLICT)
    else EndRefusal(b, t, WorkerTask(task, agent, u, c), u.status, u, c)
  }

  // ---------- users ----------

  // A blocked task goes back to the inbox whatever was asked, unless it is done and stays so.
  predicate UserResets(b: Board, task: Task, deps: seq<TaskId>, u: Update) {
    BlockedBy(b, deps) && !(task.status == Done && (u.status.None? || u.status.value == Done))
  }

  function UserTask(b: Board, task: Task, deps: seq<TaskId>, u: Update, c: Context): Task {
    if UserResets(b, task, deps, u) then Task(Inbox, None, None, None)
    else
      var moved :=
        if u.status.None? then task
        else match u.status.value {
               case Inbox => Paused(task, Inbox)
               case Review => Paused(task, Review)
               case InProgress => task.(status := InProgress, inProgressAt := Some(c.now))
               case Done => task.(status := Done)
             };
      if u.assignee.Some? then moved.(assignee := u.assignee.value) else moved
  }

  ghost function UserRefusal(b: Board, t: TaskId, u: Update, c: Context): Option<nat>
    requires t in b.tasks
  {
    var task, deps := b.tasks[t], NewDeps(b, t, u);
    if c.access.Some? then c.access
    else if u.tags.Some? && u.tags.value.Some? then u.tags.value
    else if deps.Refused? then Some(deps.code)
    else
      var reset := UserResets(b, task, deps.value, u);
      var assignment := if reset then None else AssignmentRefusal(b, Given(u), true);
      if assignment.Some? then assignment
      else EndRefusal(b, t, UserTask(b, task, deps.value, u, c), if reset then Some(Inbox) else u.status, u, c)
  }

  // ---------- what an accepted update leaves ----------

  function Reset(task: Task): Task {
    task.(status := Inbox, assignee := None, inProgressAt := None)
  }

  // When a done task is reopened its direct dependents that are not done go back to the inbox.
  function Reconciled(b: Board, t: TaskId, previous: Status): Board
    requires t in b.tasks
  {
    if previous == Done && b.tasks[t].status != Done then
      b.(tasks := map x | x in b.tasks ::
        if DependsOn(b, x, t) && b.tasks[x].status != Done then Reset(b.tasks[x]) else b.tasks[x])
    else b
  }

  function Stored(b: Board, t: TaskId, task: Task, deps: Option<seq<TaskId>>): Board
    requires t in b.tasks
  {
    var edited := if deps.Some? then b.deps[t := deps.value] else b.deps;
    Reconciled(b.(tasks := b.tasks[t := task], deps := edited), t, b.tasks[t].status)
  }

  ghost function UpdateRefusal(b: Board, actor: Actor, t: TaskId, u: Update, c: Context): Option<nat>
    requires t in b.tasks
  {
    match actor
    case Lead => LeadRefusal(b, t, u, c)
    case Worker(agent, board) => WorkerRefusal(b, agent, board, t, u, c)
    case User => UserRefusal(b, t, u, c)
  }

  // The updated task, as an accepted request stores it.
  ghost function NewTask(b: Board, actor: Actor, t: TaskId, u: Update, c: Context): Task
    requires t in b.tasks
  {
    var task := b.tasks[t];
    match actor
    case Lead => LeadTask(task, u, c)
    case Worker(agent, _) => SentToReview(WorkerTask(task, agent, u, c), task.status, c)
    case User => SentToReview(UserTask(b, task, DepsLeft(b, t, u), u, c), task.status, c)
  }

  ghost function Updated(b: Board, actor: Actor, t: TaskId, u: Update, c: Context): Response<Board> {
    if t !in b.tasks then Refused(NOT_FOUND)
    else if UpdateRefusal(b, actor, t, u, c).Some? then Refused(UpdateRefusal(b, actor, t, u, c).value)
    else Ok(Stored(b, t, NewTask(b, actor, t, u, c), if u.dependsOn.Some? then Some(DepsLeft(b, t, u)) else None))
  }

  // ---------- creating and deleting ----------

  datatype NewTaskRequest = NewTaskRequest(status: Status, assignee: Option<AgentId>, dependsOn: seq<TaskId>,
                                           tags: Option<nat>, fields: Option<nat>)

  // The assignee of a user's new task is checked by the foreign key only.
  ghost function CreateRefusal(b: Board, byLead: bool, t: TaskId, r: NewTaskRequest): Option<nat> {
    var deps := G.Validated(b.tasks.Keys, b.deps, t, r.dependsOn);
    if deps.Refused? then Some(deps.code)
    else if r.tags.Some? then r.tags
    else if BlockedBy(b, deps.value) && (r.assignee.Some? || r.status != Inbox) then Some(CONFLICT)
    else if byLead && AssignmentRefusal(b, r.assignee, false).Some? then AssignmentRefusal(b, r.assignee, false)
    else if r.assignee.Some? && r.assignee.value !in b.agents then Some(INTERNAL_ERROR)
    else r.fields
  }

  ghost function Created(b: Board, byLead: bool, t: TaskId, r: NewTaskRequest): Response<Board> {
    var refusal := CreateRefusal(b, byLead, t, r);
    if refusal.Some? then Refused(refusal.value)
    else
      var deps := G.Validated(b.tasks.Keys, b.deps, t, r.dependsOn).value;
      Ok(b.(tasks := b.tasks[t := Task(r.status, r.assignee, None, None)], deps := b.deps[t := deps]))
  }

  function Deleted(b: Board, t: TaskId): Board {
    b.(tasks := b.tasks - {t}, deps := G.WithoutTask(b.deps, t), approvals := A.WithoutTask(b.approvals, t))
  }

  // ---------- steps ----------

  datatype Step =
    | Create(byLead: bool, t: TaskId, request: NewTaskRequest)
    | Change(actor: Actor, t: TaskId, update: Update, context: Context)
    | Delete(t: TaskId)
    // Approvals, agents and rules change by requests of their own.
    | Elsewhere(approvals: A.Store, agents: map<AgentId, Agent>, rules: Rules)

  ghost predicate StepAllowed(b: Board, step: Step) {
    step.Create? ==> step.t !in b.tasks
  }

  // A refused request leaves the board as it was.
  ghost function Next(b: Board, step: Step): Board {
    match step
    case Create(byLead, t, request) =>
      var r := Created(b, byLead, t, request);
      if r.Ok? then r.value else b
    case Change(actor, t, update, context) =>
      var r := Updated(b, actor, t, update, context);
      if r.Ok? then r.value else b
    case Delete(t) => if t in b.tasks then Deleted(b, t) else b
    case Elsewhere(approvals, agents, rules) => b.(approvals := approvals, agents := agents, rules := rules)
  }
}
