/** The request handlers over the stored tasks of a board. */
module TaskStore {
  import opened Prelude
  import opened TaskBoard
  import G = DependencyGraph
  import A = ApprovalLinks

  class Store {
    const id: BoardId
    var tasks: map<TaskId, Task>
    var deps: G.Deps
    var approvals: A.Store
    var agents: map<AgentId, Agent>
    var rules: Rules

    constructor (board: Board)
      ensures State() == board
    {
      id := board.id;
      tasks, deps, approvals, agents, rules := board.tasks, board.deps, board.approvals, board.agents, board.rules;
    }

    function State(): Board
      reads this
    {
      Board(id, tasks, deps, approvals, agents, rules)
    }

    // The dependencies that are not done; one that is missing counts as not done.
    method BlockedIds(ids: seq<TaskId>) returns (blocked: seq<TaskId>)
      ensures forall d :: d in blocked <==> d in ids && !IsDone(State(), d)
      ensures blocked != [] <==> BlockedBy(State(), ids)
    {
      blocked := [];
      for i := 0 to |ids|
        invariant forall d :: d in blocked <==> d in ids[..i] && !IsDone(State(), d)
      {
        if ids[i] !in tasks || tasks[ids[i]].status != Done {
          blocked := blocked + [ids[i]];
        }
        assert ids[..i + 1] == ids[..i] + [ids[i]];
      }
      assert ids[..|ids|] == ids;
      assert blocked != [] ==> blocked[0] in blocked;
    }

    // Dependents of a task whose done status changed: reset when it was reopened.
    method ReconcileDependents(t: TaskId, previous: Status)
      requires t in tasks
      modifies this`tasks
      ensures State() == Reconciled(old(State()), t, previous)
    {
      hide Reconciled;
      ghost var b := State();
      NothingToReconcile(b, t, previous);
      if (previous == Done) == (tasks[t].status == Done) {
        return;
      }
      var reopened := previous == Done && tasks[t].status != Done;
      var todo := set x | x in tasks && t in G.DepIds(deps, x);
      ghost var dependents := todo;
      while todo != {}
        invariant todo <= dependents && tasks.Keys == b.tasks.Keys
        invariant forall x :: x in tasks ==>
                    tasks[x] == if reopened && x in dependents - todo && b.tasks[x].status != Done
                                then Reset(b.tasks[x]) else b.tasks[x]
        decreases todo
      {
        var x :| x in todo;
        todo := todo - {x};
        var dependent := tasks[x];
        if dependent.status == Done {
          continue;
        }
        if reopened {
          var shouldReset := dependent.status != Inbox || dependent.assignee.Some? || dependent.inProgressAt.Some?;
          if shouldReset {
            tasks := tasks[x := dependent.(status := Inbox, assignee := None, inProgressAt := None)];
          }
        }
      }
      AllReconciled(b, t, previous, dependents, State());
    }

    lemma NothingToReconcile(b: Board, t: TaskId, previous: Status)
      requires t in b.tasks
      ensures previous != Done || b.tasks[t].status == Done ==> Reconciled(b, t, previous) == b
    {
    }

    lemma AllReconciled(b: Board, t: TaskId, previous: Status, dependents: set<TaskId>, after: Board)
      requires t in b.tasks && dependents == (set x | x in b.tasks && t in G.DepIds(b.deps, x))
      requires after == b.(tasks := after.tasks) && after.tasks.Keys == b.tasks.Keys
      requires forall x :: x in b.tasks ==>
                 after.tasks[x] == if previous == Done && b.tasks[t].status != Done && x in dependents && b.tasks[x].status != Done
                                   then Reset(b.tasks[x]) else b.tasks[x]
      ensures after == Reconciled(b, t, previous)
    {
      assert after.tasks == Reconciled(b, t, previous).tasks;
    }

    // The board rules a changed status has to meet.
    method CheckGates(t: TaskId, u: Update, previous: Status, target: Status) returns (refusal: Option<nat>)
      ensures refusal == GateRefusal(State(), t, u, previous, target)
    {
      var statusRequested := u.status.Some? && u.status.value != previous;
      if statusRequested && previous != target && rules.blockWithPending {
        if PendingLinked(State(), t) {
          return Some(CONFLICT);
        }
      }
      if previous != Done && target == Done && rules.reviewBeforeDone && previous != Review {
        return Some(CONFLICT);
      }
      if previous != Done && target == Done && rules.approvalForDone {
        if !A.ApprovedLinked(approvals, id, t) {
          return Some(CONFLICT);
        }
      }
      return None;
    }

    // An agent can be given a task of this board exactly when it exists, is on no other
    // board, and is no lead unless leads may be. Being unknown weighs more than being a
    // lead, and that more than being elsewhere.
    method CheckAssignment(who: AgentId, leadsAllowed: bool) returns (refusal: Option<nat>)
      ensures refusal.None? <==>
                && who in agents && (agents[who].board.None? || agents[who].board == Some(id))
                && (leadsAllowed || !agents[who].isLead)
      ensures refusal == Some(NOT_FOUND) <==> who !in agents
      ensures refusal == Some(FORBIDDEN) <==> who in agents && agents[who].isLead && !leadsAllowed
      ensures refusal.Some? ==> refusal.value in {NOT_FOUND, FORBIDDEN, CONFLICT}
    {
      if who !in agents {
        return Some(NOT_FOUND);
      }
      var agent := agents[who];
      if agent.isLead && !leadsAllowed {
        return Some(FORBIDDEN);
      }
      if agent.board.Some? && agent.board.value != id {
        return Some(CONFLICT);
      }
      return None;
    }

    method EditDependencies(t: TaskId, u: Update) returns (edit: Response<seq<TaskId>>)
      requires t in tasks
      ensures edit == NewDeps(State(), t, u)
    {
      if u.dependsOn.None? {
        return Ok(G.DepIds(deps, t));
      }
      if tasks[t].status == Done {
        return Refused(CONFLICT);
      }
      edit := G.ValidateDependencyUpdate(tasks.Keys, deps, t, u.dependsOn.value);
    }

    method Commit(t: TaskId, task: Task, u: Update, edited: seq<TaskId>)
      requires t in tasks
      modifies this`tasks, this`deps
      ensures State() == Stored(old(State()), t, task, if u.dependsOn.Some? then Some(edited) else None)
    {
      var previous := tasks[t].status;
      tasks := tasks[t := task];
      if u.dependsOn.Some? {
        deps := deps[t := edited];
      }
      ReconcileDependents(t, previous);
    }

    method LeadUpdate(t: TaskId, u: Update, c: Context) returns (refusal: Option<nat>)
      requires t in tasks
      modifies this`tasks, this`deps
      ensures refusal == LeadRefusal(old(State()), t, u, c)
      ensures State() == if refusal.Some? then old(State())
                         else Stored(old(State()), t, LeadTask(old(State()).tasks[t], u, c),
                                     if u.dependsOn.Some? then Some(DepsLeft(old(State()), t, u)) else None)
    {
      hide G.Validated, BlockedBy, GateRefusal, AssignmentRefusal, Stored;
      if u.comment {
        return Some(FORBIDDEN);
      }
      if u.otherFields {
        return Some(FORBIDDEN);
      }
      var edit := EditDependencies(t, u);
      if edit.Refused? {
        return Some(edit.code);
      }
      var blocked := BlockedIds(edit.value);
      if u.tags.Some? && u.tags.value.Some? {
        return u.tags.value;
      }
      if blocked != [] && (u.assignee.Some? || u.status.Some?) {
        return Some(CONFLICT);
      }
      var task := tasks[t];
      if u.assignee.Some? {
        if u.assignee.value.None? {
          task := task.(assignee := None);
        } else {
          refusal := CheckAssignment(u.assignee.value.value, false);
          AssignmentCodes(State(), u.assignee.value.value, false, refusal);
          if refusal.Some? {
            return;
          }
          task := task.(assignee := u.assignee.value);
        }
      }
      NoAssignmentNoRefusal(State(), false);
      if u.status.Some? {
        var target := u.status.value;
        if task.status != Review {
          var assigning := u.assignee.Some? && u.assignee.value.Some?;
          if task.status == Inbox && target == InProgress && assigning {
            task := task.(status := target);
          } else {
            return Some(FORBIDDEN);
          }
        } else {
          if target != Done && target != Inbox {
            return Some(FORBIDDEN);
          }
          if target == Inbox {
            task := task.(assignee := c.mover, inProgressAt := None);
          }
          task := task.(status := target);
        }
      }
      refusal := CheckGates(t, u, tasks[t].status, task.status);
      if refusal.Some? {
        return;
      }
      if u.fields.Some? && u.fields.value.Some? {
        return u.fields.value;
      }
      Commit(t, task, u, edit.value);
    }

    // The outcome of the check is the refusal the specification names.
    lemma AssignmentCodes(b: Board, who: AgentId, leadsAllowed: bool, refusal: Option<nat>)
      requires refusal.None? <==>
                 && who in b.agents && (b.agents[who].board.None? || b.agents[who].board == Some(b.id))
                 && (leadsAllowed || !b.agents[who].isLead)
      requires refusal == Some(NOT_FOUND) <==> who !in b.agents
      requires refusal == Some(FORBIDDEN) <==> who in b.agents && b.agents[who].isLead && !leadsAllowed
      requires refusal.Some? ==> refusal.value in {NOT_FOUND, FORBIDDEN, CONFLICT}
      ensures refusal == AssignmentRefusal(b, Some(who), leadsAllowed)
    {
    }

    lemma NoAssignmentNoRefusal(b: Board, leadsAllowed: bool)
      ensures AssignmentRefusal(b, None, leadsAllowed) == None
    {
    }

    // The end of a worker's and a user's update: the task as changed so far, and the status
    // the update carries.
    method Finalize(t: TaskId, changed: Task, asked: Option<Status>, u: Update, c: Context, edited: seq<TaskId>)
      returns (refusal: Option<nat>)
      requires t in tasks
      modifies this`tasks, this`deps
      ensures refusal == EndRefusal(old(State()), t, changed, asked, u, c)
      ensures State() == if refusal.Some? then old(State())
                         else Stored(old(State()), t, SentToReview(changed, old(State()).tasks[t].status, c),
                                     if u.dependsOn.Some? then Some(edited) else None)
    {
      hide GateRefusal, Stored;
      var before, task := tasks[t], changed;
      refusal := CheckGates(t, u, before.status, task.status);
      if refusal.Some? {
        return;
      }
      if asked == Some(Review) && rules.commentForReview {
        var author := if task.assignee.Some? then task.assignee else before.assignee;
        var since := if task.previousInProgressAt.Some? then task.previousInProgressAt else before.inProgressAt;
        var recent := false;
        if author.Some? && since.Some? {
          recent := c.commented(author.value, since.value);
        }
        if !u.comment && !recent {
          return Some(UNPROCESSABLE);
        }
      }
      if task.status == Review && before.status != Review {
        if c.boardLead.Some? {
          task := task.(assignee := c.boardLead);
        }
      }
      if u.fields.Some? && u.fields.value.Some? {
        return u.fields.value;
      }
      Commit(t, task, u, edited);
    }

    method WorkerUpdate(agent: AgentId, board: Option<BoardId>, t: TaskId, u: Update,
                        c: Context) returns (refusal: Option<nat>)
      requires t in tasks
      modifies this`tasks, this`deps
      ensures refusal == WorkerRefusal(old(State()), agent, board, t, u, c)
      ensures State() == if refusal.Some? then old(State())
                         else Stored(old(State()), t,
                                     SentToReview(WorkerTask(old(State()).tasks[t], agent, u, c), old(State()).tasks[t].status, c),
                                     None)
    {
      hide BlockedBy, EndRefusal, Stored, SentToReview;
      var task := tasks[t];
      if board.Some? && board.value != id {
        return Some(FORBIDDEN);
      }
      if task.assignee.Some? && task.assignee.value != agent && u.status.Some? {
        return Some(FORBIDDEN);
      }
      if u.dependsOn.Some? || u.tags.Some? || u.assignee.Some? || u.otherFields {
        return Some(FORBIDDEN);
      }
      if u.status.Some? {
        if rules.onlyLeadChangesStatus {
          return Some(FORBIDDEN);
        }
        var value := u.status.value;
        if value != Inbox {
          var blocked := BlockedIds(G.DepIds(deps, t));
          if blocked != [] {
            return Some(CONFLICT);
          }
        }
        if value == Inbox {
          task := task.(assignee := None);
          task := task.(previousInProgressAt := task.inProgressAt);
          task := task.(inProgressAt := None);
        } else if value == Review {
          task := task.(previousInProgressAt := task.inProgressAt);
          task := task.(assignee := None);
          task := task.(inProgressAt := None);
        } else {
          task := task.(assignee := Some(agent));
          if value == InProgress {
            task := task.(inProgressAt := Some(c.now));
          }
        }
        task := task.(status := value);
      }
      refusal := Finalize(t, task, u.status, u, c, []);
    }

    method UserUpdate(t: TaskId, u: Update, c: Context) returns (refusal: Option<nat>)
      requires t in tasks
      modifies this`tasks, this`deps
      ensures refusal == UserRefusal(old(State()), t, u, c)
      ensures State() == if refusal.Some? then old(State())
                         else Stored(old(State()), t, NewTask(old(State()), User, t, u, c),
                                     if u.dependsOn.Some? then Some(DepsLeft(old(State()), t, u)) else None)
    {
      hide G.Validated, BlockedBy, EndRefusal, AssignmentRefusal, Stored, SentToReview;
      if c.access.Some? {
        return c.access;
      }
      if u.tags.Some? && u.tags.value.Some? {
        return u.tags.value;
      }
      var edit := EditDependencies(t, u);
      if edit.Refused? {
        return Some(edit.code);
      }
      var task, status, assigning := tasks[t], u.status, u.assignee;
      var blocked := BlockedIds(edit.value);
      var target := if status.Some? then status.value else task.status;
      if blocked != [] && !(task.status == Done && target == Done) {
        task := task.(status := Inbox, assignee := None, inProgressAt := None);
        status := Some(Inbox);
        assigning := Some(None);
      }
      if status.Some? {
        if status.value == Inbox || status.value == Review {
          task := task.(previousInProgressAt := task.inProgressAt);
          task := task.(assignee := None);
          task := task.(inProgressAt := None);
        } else if status.value == InProgress {
          task := task.(inProgressAt := Some(c.now));
        }
      }
      NoAssignmentNoRefusal(State(), true);
      if assigning.Some? && assigning.value.Some? {
        refusal := CheckAssignment(assigning.value.value, true);
        AssignmentCodes(State(), assigning.value.value, true, refusal);
        if refusal.Some? {
          return;
        }
      }
      if status.Some? {
        task := task.(status := status.value);
      }
      if assigning.Some? {
        task := task.(assignee := assigning.value);
      }
      refusal := Finalize(t, task, status, u, c, edit.value);
    }

    // A refused update leaves everything as it was.
    method UpdateTask(actor: Actor, t: TaskId, u: Update, c: Context) returns (refusal: Option<nat>)
      modifies this`tasks, this`deps
      ensures refusal == match Updated(old(State()), actor, t, u, c) { case Ok(_) => None case Refused(code) => Some(code) }
      ensures State() == Next(old(State()), Change(actor, t, u, c))
    {
      hide LeadRefusal, WorkerRefusal, UserRefusal, Stored, SentToReview, LeadTask, WorkerTask, UserTask, NewDeps;
      if t !in tasks {
        return Some(NOT_FOUND);
      }
      match actor {
        case Lead => refusal := LeadUpdate(t, u, c);
        case Worker(agent, board) =>
          WorkersLeaveDeps(State(), agent, board, t, u, c);
          refusal := WorkerUpdate(agent, board, t, u, c);
        case User => refusal := UserUpdate(t, u, c);
      }
    }

    lemma WorkersLeaveDeps(b: Board, agent: AgentId, board: Option<BoardId>, t: TaskId, u: Update, c: Context)
      requires t in b.tasks
      ensures WorkerRefusal(b, agent, board, t, u, c).None? ==> u.dependsOn.None?
    {
      hide EndRefusal, BlockedBy;
    }

    method CreateTask(byLead: bool, t: TaskId, r: NewTaskRequest) returns (refusal: Option<nat>)
      requires t !in tasks
      modifies this`tasks, this`deps
      ensures refusal == CreateRefusal(old(State()), byLead, t, r)
      ensures State() == Next(old(State()), Create(byLead, t, r))
    {
      hide G.Validated, BlockedBy, AssignmentRefusal;
      var edit := G.ValidateDependencyUpdate(tasks.Keys, deps, t, r.dependsOn);
      if edit.Refused? {
        return Some(edit.code);
      }
      if r.tags.Some? {
        return r.tags;
      }
      var blocked := BlockedIds(edit.value);
      if blocked != [] && (r.assignee.Some? || r.status != Inbox) {
        return Some(CONFLICT);
      }
      NoAssignmentNoRefusal(State(), false);
      if byLead && r.assignee.Some? {
        refusal := CheckAssignment(r.assignee.value, false);
        AssignmentCodes(State(), r.assignee.value, false, refusal);
        if refusal.Some? {
          return;
        }
      }
      if r.assignee.Some? && r.assignee.value !in agents {
        return Some(INTERNAL_ERROR);
      }
      if r.fields.Some? {
        return r.fields;
      }
      tasks := tasks[t := Task(r.status, r.assignee, None, None)];
      deps := deps[t := edit.value];
      return None;
    }

    method DeleteTask(t: TaskId)
      requires t in tasks
      modifies this`tasks, this`deps, this`approvals
      ensures State() == Next(old(State()), Delete(t))
    {
      approvals := A.DeleteTaskRows(approvals, t);
      deps := G.WithoutTask(deps, t);
      tasks := tasks - {t};
    }
  }
}
