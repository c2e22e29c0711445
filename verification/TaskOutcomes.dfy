/**
 What an accepted request leaves, and which requests are accepted, in the caller's terms: the
 status asked for, who holds the task, its clocks, and the rest of the board.
 */
module TaskOutcomes {
  import opened Prelude
  import opened Dedup
  import opened TaskBoard
  import opened TaskSafety
  import G = DependencyGraph
  import A = ApprovalLinks

  // Some task of the list is not done, or is not there.
  predicate Waits(b: Board, ids: seq<TaskId>) {
    exists d :: d in ids && (d in b.tasks ==> b.tasks[d].status != Done)
  }

  // A user's request that leaves a task with unfinished dependencies sends it back to the
  // inbox, unless it is done and is not asked to be anything else.
  ghost predicate SentBack(b: Board, actor: Actor, t: TaskId, u: Update, after: Board)
    requires t in b.tasks
  {
    && actor.User? && Waits(b, G.DepIds(after.deps, t))
    && !(b.tasks[t].status == Done && (u.status.None? || u.status == Some(Done)))
  }

  // The lead gets what enters review, if the board has a lead.
  function ReviewHolder(was: Task, c: Context, otherwise: Option<AgentId>): Option<AgentId> {
    if was.status != Review && c.boardLead.Some? then c.boardLead else otherwise
  }

  // ---------- what is stored ----------

  lemma {:induction false} StoredTask(b: Board, actor: Actor, t: TaskId, u: Update, c: Context)
    requires GraphOk(b) && Updated(b, actor, t, u, c).Ok?
    ensures var after := Updated(b, actor, t, u, c).value;
            && t in b.tasks && t in after.tasks && after.tasks[t] == NewTask(b, actor, t, u, c)
            && G.DepIds(after.deps, t) == DepsLeft(b, t, u)
            && NewDeps(b, t, u) == Ok(DepsLeft(b, t, u))
  {
    UpdateAccepted(b, actor, t, u, c);
    OnlyOneHop(b, actor, t, u, c, t);
    hide GraphOk, UpdateRefusal, NewTask, G.Validated, Reconciled;
  }

  lemma {:induction false} WaitsIsBlocked(b: Board, ids: seq<TaskId>)
    ensures Waits(b, ids) <==> BlockedBy(b, ids)
  {
    if d :| d in ids && (d in b.tasks ==> b.tasks[d].status != Done) {
      assert !IsDone(b, d);
    }
  }

  // The task after a worker's request: unchanged when no status was asked; else in that
  // status, held by the worker who starts or finishes it, by nobody in the inbox, and by the
  // board's lead in review. Starting sets the clock; a pause keeps its reading as previous.
  lemma {:induction false} WorkerOutcome(b: Board, agent: AgentId, board: Option<BoardId>, t: TaskId, u: Update, c: Context)
    requires GraphOk(b) && Updated(b, Worker(agent, board), t, u, c).Ok?
    ensures t in b.tasks && t in Updated(b, Worker(agent, board), t, u, c).value.tasks
    ensures var was, left := b.tasks[t], Updated(b, Worker(agent, board), t, u, c).value.tasks[t];
            && (u.status == None ==> left == was)
            && (u.status == Some(Inbox) ==> left == Task(Inbox, None, None, was.inProgressAt))
            && (u.status == Some(InProgress) ==> left == Task(InProgress, Some(agent), Some(c.now), was.previousInProgressAt))
            && (u.status == Some(Review) ==> left == Task(Review, ReviewHolder(was, c, None), None, was.inProgressAt))
            && (u.status == Some(Done) ==> left == Task(Done, Some(agent), was.inProgressAt, was.previousInProgressAt))
  {
    hide Updated, GraphOk;
    StoredTask(b, Worker(agent, board), t, u, c);
  }

  // The task after a user's request. The agent given holds the task, except in review with a
  // lead; nobody given leaves the holder, except after a pause.
  lemma {:induction false} UserOutcome(b: Board, t: TaskId, u: Update, c: Context)
    requires GraphOk(b) && Updated(b, User, t, u, c).Ok?
    ensures t in b.tasks && t in Updated(b, User, t, u, c).value.tasks
    ensures var was, after := b.tasks[t], Updated(b, User, t, u, c).value;
            var left := after.tasks[t];
            var kept := if u.assignee.Some? then u.assignee.value else was.assignee;
            var given := if u.assignee.Some? then u.assignee.value else None;
            if SentBack(b, User, t, u, after) then left == Task(Inbox, None, None, None)
            else
              && (u.status == None ==> left == was.(assignee := kept))
              && (u.status == Some(Inbox) ==> left == Task(Inbox, given, None, was.inProgressAt))
              && (u.status == Some(InProgress) ==> left == Task(InProgress, kept, Some(c.now), was.previousInProgressAt))
              && (u.status == Some(Review) ==> left == Task(Review, ReviewHolder(was, c, given), None, was.inProgressAt))
              && (u.status == Some(Done) ==> left == Task(Done, kept, was.inProgressAt, was.previousInProgressAt))
  {
    hide Updated, GraphOk, DepsLeft, NewDeps, BlockedBy, Waits;
    StoredTask(b, User, t, u, c);
    WaitsIsBlocked(b, DepsLeft(b, t, u));
  }

  // The task after a lead's request. Rework returns it to the worker who moved it to review
  // and stops its clock; nothing else a lead does touches a clock.
  lemma {:induction false} LeadOutcome(b: Board, t: TaskId, u: Update, c: Context)
    requires GraphOk(b) && Updated(b, Lead, t, u, c).Ok?
    ensures t in b.tasks && t in Updated(b, Lead, t, u, c).value.tasks
    ensures var was, left := b.tasks[t], Updated(b, Lead, t, u, c).value.tasks[t];
            var kept := if u.assignee.Some? then u.assignee.value else was.assignee;
            && (u.status == None ==> left == was.(assignee := kept))
            && (u.status == Some(InProgress) ==> was.status == Inbox && kept.Some? && left == was.(status := InProgress, assignee := kept))
            && (u.status == Some(Inbox) ==> was.status == Review && left == Task(Inbox, c.mover, None, was.previousInProgressAt))
            && (u.status == Some(Done) ==> was.status == Review && left == was.(status := Done, assignee := kept))
            && u.status != Some(Review)
  {
    StoredTask(b, Lead, t, u, c);
    LeadMoveMade(b, t, u, c);
    hide Updated, GraphOk;
  }

  lemma {:induction false} LeadMoveMade(b: Board, t: TaskId, u: Update, c: Context)
    requires Updated(b, Lead, t, u, c).Ok?
    ensures t in b.tasks && LeadStatusRefusal(b.tasks[t].status, u).None?
  {
    hide G.Validated, GateRefusal, AssignmentRefusal, BlockedBy, LeadStatusRefusal;
  }

  // Whoever asks: an accepted request leaves exactly the status it asked for, or the old one
  // when it asked for none, unless it sends the task back.
  lemma {:induction false} StatusAsAsked(b: Board, actor: Actor, t: TaskId, u: Update, c: Context)
    requires GraphOk(b) && Updated(b, actor, t, u, c).Ok?
    ensures t in b.tasks && t in Updated(b, actor, t, u, c).value.tasks
    ensures var after := Updated(b, actor, t, u, c).value;
            after.tasks[t].status ==
              if SentBack(b, actor, t, u, after) then Inbox
              else if u.status.Some? then u.status.value
              else b.tasks[t].status
  {
    hide Updated, GraphOk, Waits;
    match actor {
      case Worker(agent, board) => WorkerOutcome(b, agent, board, t, u, c);
      case User => UserOutcome(b, t, u, c);
      case Lead => LeadOutcome(b, t, u, c);
    }
  }

  // ---------- the rest of the board ----------

  // A request changes the tasks and the dependencies of the one task, and nothing else: its
  // dependencies become the distinct ones it names, and of the other tasks only unfinished
  // dependents of a reopened task change, which go back to the inbox.
  lemma {:induction false} RestOfBoard(b: Board, actor: Actor, t: TaskId, u: Update, c: Context)
    requires GraphOk(b) && Updated(b, actor, t, u, c).Ok?
    ensures t in b.tasks && Updated(b, actor, t, u, c).value.tasks.Keys == b.tasks.Keys
    ensures var after := Updated(b, actor, t, u, c).value;
            && after == b.(tasks := after.tasks, deps := after.deps)
            && SetOf(G.DepIds(after.deps, t)) == SetOf(if u.dependsOn.Some? then u.dependsOn.value else G.DepIds(b.deps, t))
            && (u.dependsOn.None? ==> after.deps == b.deps)
            && forall x :: x in b.tasks && x != t ==>
                 && G.DepIds(after.deps, x) == G.DepIds(b.deps, x)
                 && after.tasks[x] ==
                    if b.tasks[t].status == Done && after.tasks[t].status != Done && t in G.DepIds(b.deps, x)
                       && b.tasks[x].status != Done
                    then Task(Inbox, None, None, b.tasks[x].previousInProgressAt) else b.tasks[x]
  {
    StoredTask(b, actor, t, u, c);
    Frame(b, actor, t, u, c);
    if u.dependsOn.Some? {
      AcceptedDeps(b, t, u);
    }
    var after := Updated(b, actor, t, u, c).value;
    forall x | x in b.tasks && x != t
      ensures && G.DepIds(after.deps, x) == G.DepIds(b.deps, x)
              && after.tasks[x] ==
                 if b.tasks[t].status == Done && after.tasks[t].status != Done && t in G.DepIds(b.deps, x)
                    && b.tasks[x].status != Done
                 then Task(Inbox, None, None, b.tasks[x].previousInProgressAt) else b.tasks[x]
    {
      OnlyOneHop(b, actor, t, u, c, x);
      hide Updated, NewTask, GraphOk;
    }
    hide Updated, NewTask, GraphOk;
  }

  lemma {:induction false} Frame(b: Board, actor: Actor, t: TaskId, u: Update, c: Context)
    requires Updated(b, actor, t, u, c).Ok?
    ensures var after := Updated(b, actor, t, u, c).value;
            && after == b.(tasks := after.tasks, deps := after.deps) && after.tasks.Keys == b.tasks.Keys
            && (u.dependsOn.None? ==> after.deps == b.deps)
  {
    hide UpdateRefusal, NewTask, DepsLeft;
  }

  // ---------- which requests are accepted ----------

  // The dependencies the request asks for, or those there are.
  function AskedIds(b: Board, t: TaskId, u: Update): seq<TaskId> {
    if u.dependsOn.Some? then u.dependsOn.value else G.DepIds(b.deps, t)
  }

  function AskedStatus(b: Board, t: TaskId, u: Update): Status
    requires t in b.tasks
  {
    if u.status.Some? then u.status.value else b.tasks[t].status
  }

  // New dependencies are other tasks of the board that do not lead back to this one, and the
  // task is not done.
  ghost predicate DepsFit(b: Board, t: TaskId, u: Update)
    requires t in b.tasks
  {
    u.dependsOn.Some? ==>
      && b.tasks[t].status != Done
      && forall d :: d in u.dependsOn.value ==> d != t && d in b.tasks && !G.Reaches(G.EdgesOf(b.deps), d, t)
  }

  predicate CanHold(b: Board, who: Option<AgentId>, leadsAllowed: bool) {
    who.Some? ==>
      && who.value in b.agents && (b.agents[who.value].board.None? || b.agents[who.value].board == Some(b.id))
      && (b.agents[who.value].isLead ==> leadsAllowed)
  }

  // The board's rules let the task go from its status to the target.
  predicate GatesOpen(b: Board, t: TaskId, u: Update, target: Status)
    requires t in b.tasks
  {
    var was := b.tasks[t].status;
    && (b.rules.blockWithPending && u.status.Some? && u.status.value != was && target != was ==>
          forall a: A.ApprovalId :: a in b.approvals.approvals && t in A.Effective(b.approvals, a) ==>
            b.approvals.approvals[a].board != b.id || b.approvals.approvals[a].status != A.Pending)
    && (b.rules.reviewBeforeDone && target == Done ==> was == Review || was == Done)
    && (b.rules.approvalForDone && target == Done && was != Done ==> A.ApprovedLinked(b.approvals, b.id, t))
  }

  // Whoever holds the task has commented since its work began, where the board wants that.
  predicate Commented(b: Board, t: TaskId, u: Update, c: Context, holder: Option<AgentId>)
    requires t in b.tasks
  {
    b.rules.commentForReview && !u.comment ==>
      holder.Some? && b.tasks[t].inProgressAt.Some? && c.commented(holder.value, b.tasks[t].inProgressAt.value)
  }

  predicate TagsAndFieldsFit(u: Update) {
    (u.tags.None? || u.tags.value.None?) && (u.fields.None? || u.fields.value.None?)
  }

  predicate WorkerMay(b: Board, agent: AgentId, board: Option<BoardId>, t: TaskId, u: Update)
    requires t in b.tasks
  {
    && (board.None? || board == Some(b.id))
    && u.dependsOn.None? && u.tags.None? && u.assignee.None? && !u.otherFields
    && (u.status.Some? ==> !b.rules.onlyLeadChangesStatus && (b.tasks[t].assignee.None? || b.tasks[t].assignee == Some(agent)))
  }

  // The moves of a lead: to hand out a new task, and to accept or return one in review.
  predicate LeadMoves(b: Board, t: TaskId, u: Update)
    requires t in b.tasks
  {
    u.status.Some? ==>
      || (b.tasks[t].status == Review && (u.status.value == Done || u.status.value == Inbox))
      || (b.tasks[t].status == Inbox && u.status.value == InProgress && Given(u).Some?)
  }

  lemma {:induction false} GatesMeaning(b: Board, t: TaskId, u: Update, target: Status)
    requires t in b.tasks
    ensures GateRefusal(b, t, u, b.tasks[t].status, target) == if GatesOpen(b, t, u, target) then None else Some(CONFLICT)
  {
    hide A.ApprovedLinked, A.Effective;
    PendingMeaning(b, t);
    hide PendingLinked;
  }

  lemma PendingMeaning(b: Board, t: TaskId)
    ensures PendingLinked(b, t) <==>
              exists a: A.ApprovalId :: a in b.approvals.approvals && t in A.Effective(b.approvals, a)
                                        && b.approvals.approvals[a].board == b.id && b.approvals.approvals[a].status == A.Pending
  {
    hide A.Effective;
  }

  lemma CanHoldMeaning(b: Board, who: Option<AgentId>, leadsAllowed: bool)
    ensures AssignmentRefusal(b, who, leadsAllowed).None? <==> CanHold(b, who, leadsAllowed)
  {
  }

  lemma WorkerMayMeaning(b: Board, agent: AgentId, board: Option<BoardId>, t: TaskId, u: Update, c: Context)
    requires t in b.tasks
    ensures WorkerRefusal(b, agent, board, t, u, c) ==
              if !WorkerMay(b, agent, board, t, u) then Some(FORBIDDEN)
              else if u.status.Some? && u.status.value != Inbox && BlockedBy(b, G.DepIds(b.deps, t)) then Some(CONFLICT)
              else EndRefusal(b, t, WorkerTask(b.tasks[t], agent, u, c), u.status, u, c)
    ensures WorkerMay(b, agent, board, t, u) ==> u.tags.None?
  {
    hide BlockedBy, EndRefusal, WorkerTask;
  }

  lemma WorkerCommented(b: Board, agent: AgentId, t: TaskId, u: Update, c: Context)
    requires t in b.tasks
    ensures NeedsComment(b, b.tasks[t], WorkerTask(b.tasks[t], agent, u, c), u.status, u, c)
            <==> u.status == Some(Review) && !Commented(b, t, u, c, b.tasks[t].assignee)
    ensures WorkerTask(b.tasks[t], agent, u, c).status == AskedStatus(b, t, u)
  {
  }

  // A worker's request is accepted exactly when it may be made, the task waits for nothing
  // or only goes back to the inbox, the rules let it pass, and a review comes with a comment.
  lemma {:induction false} WorkerAcceptedIff(b: Board, agent: AgentId, board: Option<BoardId>, t: TaskId, u: Update, c: Context)
    ensures Updated(b, Worker(agent, board), t, u, c).Ok? <==>
              && t in b.tasks && WorkerMay(b, agent, board, t, u)
              && (u.status.None? || u.status == Some(Inbox) || !Waits(b, G.DepIds(b.deps, t)))
              && GatesOpen(b, t, u, AskedStatus(b, t, u))
              && (u.status == Some(Review) ==> Commented(b, t, u, c, b.tasks[t].assignee))
              && TagsAndFieldsFit(u)
  {
    hide GateRefusal, GatesOpen, BlockedBy, Waits, WorkerRefusal, WorkerMay, NeedsComment, Commented, WorkerTask,
         AskedStatus;
    if t in b.tasks {
      WaitsIsBlocked(b, G.DepIds(b.deps, t));
      GatesMeaning(b, t, u, AskedStatus(b, t, u));
      WorkerMayMeaning(b, agent, board, t, u, c);
      WorkerCommented(b, agent, t, u, c);
    }
  }

  lemma {:induction false} DepsFitMeaning(b: Board, t: TaskId, u: Update)
    requires GraphOk(b) && t in b.tasks
    ensures NewDeps(b, t, u).Ok? <==> DepsFit(b, t, u)
    ensures NewDeps(b, t, u).Ok? ==> Waits(b, DepsLeft(b, t, u)) == Waits(b, AskedIds(b, t, u)) == BlockedBy(b, DepsLeft(b, t, u))
  {
    hide BlockedBy, G.Acyclic, Waits;
    WaitsIsBlocked(b, DepsLeft(b, t, u));
    if u.dependsOn.Some? {
      var ids := u.dependsOn.value;
      DedupedMeaning(ids);
      assert forall d :: d in ids <==> d in SetOf(ids);
      assert forall d :: d in Deduped(ids) <==> d in SetOf(Deduped(ids));
      if SetOf(ids) <= b.tasks.Keys && t !in ids {
        assert t !in SetOf(ids);
        assert G.EdgesOf(b.deps)[t := SetOf(ids)].Keys <= b.tasks.Keys;
        G.CyclicIffReachesBack(b.tasks.Keys, G.EdgesOf(b.deps), t, SetOf(ids));
      }
      hide G.Cyclic, G.Reaches;
      if NewDeps(b, t, u).Ok? {
        WaitsIsBlocked(b, ids);
        SameBlocked(b, DepsLeft(b, t, u), ids);
      }
    }
  }

  // Whether a user's request sends the task back, told from the request alone.
  predicate GoesBack(b: Board, t: TaskId, u: Update)
    requires t in b.tasks
  {
    Waits(b, AskedIds(b, t, u)) && !(b.tasks[t].status == Done && (u.status.None? || u.status == Some(Done)))
  }

  // A user's request is accepted exactly when the user has access, tags, fields and new
  // dependencies fit, the agent given can hold the task, and rules and comment are met; a
  // request that sends the task back needs neither an agent nor a comment that fits.
  lemma {:induction false} UserAcceptedIff(b: Board, t: TaskId, u: Update, c: Context)
    requires GraphOk(b)
    ensures Updated(b, User, t, u, c).Ok? <==>
              && t in b.tasks && c.access.None? && DepsFit(b, t, u) && TagsAndFieldsFit(u)
              && (GoesBack(b, t, u) || CanHold(b, Given(u), true))
              && GatesOpen(b, t, u, if GoesBack(b, t, u) then Inbox else AskedStatus(b, t, u))
              && (u.status == Some(Review) && !GoesBack(b, t, u) ==>
                    Commented(b, t, u, c, if Given(u).Some? then Given(u) else b.tasks[t].assignee))
  {
    hide GateRefusal, GatesOpen, BlockedBy, Waits, DepsFit, NewDeps, GraphOk;
    if t in b.tasks {
      DepsFitMeaning(b, t, u);
      if NewDeps(b, t, u).Ok? {
        assert UserResets(b, b.tasks[t], NewDeps(b, t, u).value, u) == GoesBack(b, t, u);
        assert UserTask(b, b.tasks[t], NewDeps(b, t, u).value, u, c).status == if GoesBack(b, t, u) then Inbox else AskedStatus(b, t, u);
        CanHoldMeaning(b, Given(u), true);
      }
      GatesMeaning(b, t, u, if GoesBack(b, t, u) then Inbox else AskedStatus(b, t, u));
    }
  }

  // A lead's request is accepted exactly when it carries no comment and nothing else a lead
  // may not set, what it sets fits, a task it assigns or moves waits for nothing, and the move
  // is one of the three that leads make.
  lemma {:induction false} LeadAcceptedIff(b: Board, t: TaskId, u: Update, c: Context)
    requires GraphOk(b)
    ensures Updated(b, Lead, t, u, c).Ok? <==>
              && t in b.tasks && !u.comment && !u.otherFields && DepsFit(b, t, u) && TagsAndFieldsFit(u)
              && (u.assignee.Some? || u.status.Some? ==> !Waits(b, AskedIds(b, t, u)))
              && CanHold(b, Given(u), false)
              && LeadMoves(b, t, u)
              && GatesOpen(b, t, u, AskedStatus(b, t, u))
  {
    hide GateRefusal, GatesOpen, BlockedBy, Waits, DepsFit, NewDeps, GraphOk;
    if t in b.tasks {
      DepsFitMeaning(b, t, u);
      GatesMeaning(b, t, u, AskedStatus(b, t, u));
      CanHoldMeaning(b, Given(u), false);
      assert LeadStatusRefusal(b.tasks[t].status, u).None? ==> LeadTask(b.tasks[t], u, c).status == AskedStatus(b, t, u);
    }
  }

  // ---------- creating and deleting ----------

  // A task is created exactly when its dependencies are tasks of the board, one that waits
  // starts unassigned in the inbox, and its agent exists, and for a lead can hold it.
  lemma {:induction false} CreatedIff(b: Board, byLead: bool, t: TaskId, r: NewTaskRequest)
    requires GraphOk(b) && t !in b.tasks
    ensures Created(b, byLead, t, r).Ok? <==>
              && (forall d :: d in r.dependsOn ==> d in b.tasks)
              && (Waits(b, r.dependsOn) ==> r.status == Inbox && r.assignee.None?)
              && (r.assignee.Some? ==> r.assignee.value in b.agents) && (byLead ==> CanHold(b, r.assignee, false))
              && r.tags.None? && r.fields.None?
  {
    NewTasksCloseNoCycle(b, t, r.dependsOn);
    hide G.Validated, BlockedBy, Waits, GraphOk;
  }

  lemma {:induction false} NewTasksCloseNoCycle(b: Board, t: TaskId, ids: seq<TaskId>)
    requires GraphOk(b) && t !in b.tasks
    ensures var r := G.Validated(b.tasks.Keys, b.deps, t, ids);
            && (r.Ok? <==> forall d :: d in ids ==> d in b.tasks)
            && (r.Ok? ==> BlockedBy(b, r.value) == Waits(b, ids) && SetOf(r.value) == SetOf(ids))
  {
    hide BlockedBy, Waits, G.Acyclic;
    DedupedMeaning(ids);
    var stored := Deduped(ids);
    assert forall d :: d in ids <==> d in SetOf(ids);
    assert forall d :: d in stored <==> d in SetOf(stored);
    WaitsIsBlocked(b, ids);
    SameBlocked(b, stored, ids);
    if SetOf(ids) <= b.tasks.Keys {
      assert t !in SetOf(ids);
      assert forall n :: n in b.deps ==> t !in SetOf(b.deps[n]);
      NewNodeKeepsAcyclic(b.deps, t, stored);
      assert G.EdgesOf(b.deps[t := stored]) == G.EdgesOf(b.deps)[t := SetOf(stored)];
      AcyclicIsNotCyclic(b.tasks.Keys, G.EdgesOf(b.deps)[t := SetOf(stored)]);
    }
  }

  lemma AcyclicIsNotCyclic(tasks: set<TaskId>, edges: G.Edges)
    requires G.Acyclic(edges)
    ensures !G.Cyclic(tasks, edges)
  {
  }

  lemma {:induction false} CreatedOutcome(b: Board, byLead: bool, t: TaskId, r: NewTaskRequest)
    requires GraphOk(b) && t !in b.tasks && Created(b, byLead, t, r).Ok?
    ensures var after := Next(b, Create(byLead, t, r));
            && after == b.(tasks := b.tasks[t := Task(r.status, r.assignee, None, None)], deps := after.deps)
            && SetOf(G.DepIds(after.deps, t)) == SetOf(r.dependsOn)
            && forall x :: x != t ==> G.DepIds(after.deps, x) == G.DepIds(b.deps, x)
  {
    NewTasksCloseNoCycle(b, t, r.dependsOn);
    hide G.Validated, BlockedBy, Waits, GraphOk;
  }

  lemma {:induction false} DeletedOutcome(b: Board, t: TaskId)
    requires t in b.tasks
    ensures var after := Next(b, Delete(t));
            && after.tasks == b.tasks - {t} && t !in after.deps && after.agents == b.agents && after.rules == b.rules
            && after.approvals == A.WithoutTask(b.approvals, t)
            && forall x :: x != t ==> SetOf(G.DepIds(after.deps, x)) == SetOf(G.DepIds(b.deps, x)) - {t}
  {
    hide A.WithoutTask;
    var after := Next(b, Delete(t));
    forall x | x != t
      ensures SetOf(G.DepIds(after.deps, x)) == SetOf(G.DepIds(b.deps, x)) - {t}
    {
      if x in b.deps {
        G.WithoutMeaning(b.deps[x], t);
      }
    }
  }

  // ---------- every change of a status ----------

  // A status changes by an accepted request for that task, to what it asks or back to the
  // inbox, or because a dependency is reopened, to the inbox.
  lemma {:induction false} StatusMoves(b: Board, step: Step, x: TaskId)
    requires GraphOk(b) && StepAllowed(b, step)
    requires x in b.tasks && x in Next(b, step).tasks && Next(b, step).tasks[x].status != b.tasks[x].status
    ensures step.Change? && Updated(b, step.actor, step.t, step.update, step.context).Ok?
    ensures var after, u := Next(b, step), step.update;
            && after == Updated(b, step.actor, step.t, u, step.context).value
            && if step.t == x
               then if SentBack(b, step.actor, x, u, after) then after.tasks[x].status == Inbox
                    else u.status == Some(after.tasks[x].status)
               else && after.tasks[x].status == Inbox && step.t in G.DepIds(b.deps, x)
                    && b.tasks[step.t].status == Done && after.tasks[step.t].status != Done
  {
    hide Updated, Created, GraphOk, Waits;
    if step.Change? && Updated(b, step.actor, step.t, step.update, step.context).Ok? {
      StatusAsAsked(b, step.actor, step.t, step.update, step.context);
      RestOfBoard(b, step.actor, step.t, step.update, step.context);
    } else if step.Create? && Created(b, step.byLead, step.t, step.request).Ok? {
      CreatedOutcome(b, step.byLead, step.t, step.request);
    }
  }

  // ---------- why a request is refused ----------

  function DepsCode(b: Board, t: TaskId, ids: seq<TaskId>): nat
    requires t in b.tasks
  {
    if b.tasks[t].status == Done then 409
    else if t in ids then 422
    else if exists d :: d in ids && d !in b.tasks then 404
    else 409
  }

  function HolderCode(b: Board, who: Option<AgentId>, leadsAllowed: bool): nat {
    if who.Some? && who.value !in b.agents then 404
    else if who.Some? && b.agents[who.value].isLead && !leadsAllowed then 403
    else 409
  }

  // What the caller may not do comes first, then what waits or has to wait, then a missing comment.
  lemma {:induction false} WorkerRefusedWith(b: Board, agent: AgentId, board: Option<BoardId>, t: TaskId, u: Update, c: Context)
    requires Updated(b, Worker(agent, board), t, u, c).Refused?
    ensures Updated(b, Worker(agent, board), t, u, c).code ==
              if t !in b.tasks then 404
              else if !WorkerMay(b, agent, board, t, u) then 403
              else if (u.status.Some? && u.status.value != Inbox && Waits(b, G.DepIds(b.deps, t)))
                      || !GatesOpen(b, t, u, AskedStatus(b, t, u)) then 409
              else if u.fields.Some? && u.fields.value.Some?
                      && (u.status == Some(Review) ==> Commented(b, t, u, c, b.tasks[t].assignee)) then u.fields.value.value
              else 422
  {
    hide GateRefusal, GatesOpen, BlockedBy, Waits, WorkerRefusal, WorkerMay, NeedsComment, Commented, WorkerTask,
         AskedStatus;
    if t in b.tasks {
      WaitsIsBlocked(b, G.DepIds(b.deps, t));
      GatesMeaning(b, t, u, AskedStatus(b, t, u));
      WorkerMayMeaning(b, agent, board, t, u, c);
      WorkerCommented(b, agent, t, u, c);
    }
  }

  lemma {:induction false} DepsCodeMeaning(b: Board, t: TaskId, u: Update)
    requires GraphOk(b) && t in b.tasks && NewDeps(b, t, u).Refused?
    ensures u.dependsOn.Some? && NewDeps(b, t, u).code == DepsCode(b, t, u.dependsOn.value)
  {
    hide G.Acyclic, G.Cyclic;
    var ids := u.dependsOn.value;
    DedupedMeaning(ids);
    assert forall d :: d in ids <==> d in SetOf(ids);
    assert forall d :: d in Deduped(ids) <==> d in SetOf(Deduped(ids));
  }

  lemma {:induction false} UserRefusedWith(b: Board, t: TaskId, u: Update, c: Context)
    requires GraphOk(b) && Updated(b, User, t, u, c).Refused?
    ensures Updated(b, User, t, u, c).code ==
              if t !in b.tasks then 404
              else if c.access.Some? then c.access.value
              else if u.tags.Some? && u.tags.value.Some? then u.tags.value.value
              else if u.dependsOn.Some? && !DepsFit(b, t, u) then DepsCode(b, t, u.dependsOn.value)
              else if !GoesBack(b, t, u) && !CanHold(b, Given(u), true) then HolderCode(b, Given(u), true)
              else if !GatesOpen(b, t, u, if GoesBack(b, t, u) then Inbox else AskedStatus(b, t, u)) then 409
              else if u.fields.Some? && u.fields.value.Some?
                      && (u.status == Some(Review) && !GoesBack(b, t, u) ==>
                            Commented(b, t, u, c, if Given(u).Some? then Given(u) else b.tasks[t].assignee)) then u.fields.value.value
              else 422
  {
    hide GateRefusal, GatesOpen, BlockedBy, Waits, DepsFit, NewDeps, GraphOk;
    if t in b.tasks {
      DepsFitMeaning(b, t, u);
      if NewDeps(b, t, u).Ok? {
        assert UserResets(b, b.tasks[t], NewDeps(b, t, u).value, u) == GoesBack(b, t, u);
        assert UserTask(b, b.tasks[t], NewDeps(b, t, u).value, u, c).status == if GoesBack(b, t, u) then Inbox else AskedStatus(b, t, u);
        CanHoldMeaning(b, Given(u), true);
      } else {
        DepsCodeMeaning(b, t, u);
      }
      GatesMeaning(b, t, u, if GoesBack(b, t, u) then Inbox else AskedStatus(b, t, u));
    }
  }

  lemma {:induction false} LeadRefusedWith(b: Board, t: TaskId, u: Update, c: Context)
    requires GraphOk(b) && Updated(b, Lead, t, u, c).Refused?
    ensures Updated(b, Lead, t, u, c).code ==
              if t !in b.tasks then 404
              else if u.comment || u.otherFields then 403
              else if u.dependsOn.Some? && !DepsFit(b, t, u) then DepsCode(b, t, u.dependsOn.value)
              else if u.tags.Some? && u.tags.value.Some? then u.tags.value.value
              else if (u.assignee.Some? || u.status.Some?) && Waits(b, AskedIds(b, t, u)) then 409
              else if !CanHold(b, Given(u), false) then HolderCode(b, Given(u), false)
              else if !LeadMoves(b, t, u) then 403
              else if u.fields.Some? && u.fields.value.Some? && GatesOpen(b, t, u, AskedStatus(b, t, u)) then u.fields.value.value
              else 409
  {
    hide GateRefusal, GatesOpen, BlockedBy, Waits, DepsFit, NewDeps, GraphOk;
    if t in b.tasks {
      DepsFitMeaning(b, t, u);
      if NewDeps(b, t, u).Refused? {
        DepsCodeMeaning(b, t, u);
      }
      GatesMeaning(b, t, u, AskedStatus(b, t, u));
      CanHoldMeaning(b, Given(u), false);
      assert LeadStatusRefusal(b.tasks[t].status, u).None? ==> LeadTask(b.tasks[t], u, c).status == AskedStatus(b, t, u);
    }
  }
}
