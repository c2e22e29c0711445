/** What every run of a board keeps: dependency safety, the gates into done, and timing. */
module TaskSafety {
  import opened Prelude
  import opened Dedup
  import opened TaskBoard
  import G = DependencyGraph
  import A = ApprovalLinks

  predicate Active(task: Task) {
    task.status == InProgress || task.status == Review
  }

  // Work under way or in review has all its dependencies done.
  ghost predicate Safe(b: Board) {
    forall t :: t in b.tasks && Active(b.tasks[t]) ==> !BlockedBy(b, G.DepIds(b.deps, t))
  }

  // Dependencies stay on the board and form no cycle.
  ghost predicate GraphOk(b: Board) {
    && b.deps.Keys <= b.tasks.Keys
    && (forall t :: t in b.deps ==> SetOf(b.deps[t]) <= b.tasks.Keys)
    && G.Acyclic(G.EdgesOf(b.deps))
  }

  // A task in the inbox or in review has no running clock.
  ghost predicate Timed(b: Board) {
    forall t :: t in b.tasks && (b.tasks[t].status == Inbox || b.tasks[t].status == Review) ==> b.tasks[t].inProgressAt.None?
  }

  // ---------- the graph ----------

  lemma NoSelfDependency(deps: G.Deps, t: TaskId)
    requires G.Acyclic(G.EdgesOf(deps))
    ensures t !in G.DepIds(deps, t)
  {
    var p := [t, t];
    assert p[0] == p[1];
    assert !G.IsPath(G.EdgesOf(deps), p);
  }

  lemma {:induction false} AcceptedDeps(b: Board, t: TaskId, u: Update)
    requires GraphOk(b) && t in b.tasks && NewDeps(b, t, u).Ok? && u.dependsOn.Some?
    ensures G.Acyclic(G.EdgesOf(b.deps[t := DepsLeft(b, t, u)]))
    ensures SetOf(DepsLeft(b, t, u)) == SetOf(u.dependsOn.value) <= b.tasks.Keys && t !in DepsLeft(b, t, u)
  {
    hide G.Validated, G.Acyclic;
    G.EditKeepsAcyclic(b.tasks.Keys, b.deps, t, u.dependsOn.value);
  }

  lemma {:induction false} UpdateAccepted(b: Board, actor: Actor, t: TaskId, u: Update, c: Context)
    requires Updated(b, actor, t, u, c).Ok?
    ensures t in b.tasks && NewDeps(b, t, u).Ok?
  {
    hide G.Validated, G.Acyclic, EndRefusal, GateRefusal;
  }

  lemma {:induction false} UpdateKeepsGraph(b: Board, actor: Actor, t: TaskId, u: Update, c: Context)
    requires GraphOk(b) && Updated(b, actor, t, u, c).Ok?
    ensures GraphOk(Updated(b, actor, t, u, c).value)
  {
    UpdateAccepted(b, actor, t, u, c);
    if u.dependsOn.Some? {
      AcceptedDeps(b, t, u);
    }
    hide G.Validated, G.Acyclic, UpdateRefusal, NewTask, DepsLeft, NewDeps;
  }

  // A new task has no dependents yet, so its edges close no cycle.
  lemma {:induction false} NewNodeKeepsAcyclic(deps: G.Deps, t: TaskId, ids: seq<TaskId>)
    requires G.Acyclic(G.EdgesOf(deps)) && t !in ids && forall n :: n in deps ==> t !in deps[n]
    ensures G.Acyclic(G.EdgesOf(deps[t := ids]))
  {
    var before, after := G.EdgesOf(deps), G.EdgesOf(deps[t := ids]);
    forall p | G.IsPath(after, p)
      ensures !G.Repeats(p)
    {
      forall k | 0 < k < |p|
        ensures p[k] != t
      {
        assert p[k - 1 + 1] in G.Next(after, p[k - 1]);
      }
      if |p| > 1 {
        assert G.IsPath(before, p[1..]);
        assert !G.Repeats(p[1..]);
        forall j, k | 0 <= j < k < |p|
          ensures p[j] != p[k]
        {
          if j == 0 {
            FirstIsOld(before, after, t, p);
          } else {
            assert p[j] == p[1..][j - 1] && p[k] == p[1..][k - 1];
          }
        }
      }
    }
  }

  // A path either starts at the new node, which it never meets again, or is an old one.
  lemma FirstIsOld(before: G.Edges, after: G.Edges, t: TaskId, p: seq<TaskId>)
    requires G.Acyclic(before) && G.IsPath(after, p) && forall n :: n != t ==> G.Next(after, n) == G.Next(before, n)
    requires forall k :: 0 < k < |p| ==> p[k] != t
    ensures forall k :: 0 < k < |p| ==> p[0] != p[k]
  {
    if p[0] != t {
      assert G.IsPath(before, p);
      assert !G.Repeats(p);
    }
  }

  lemma {:induction false} StepKeepsGraph(b: Board, step: Step)
    requires GraphOk(b) && StepAllowed(b, step)
    ensures GraphOk(Next(b, step))
  {
    hide G.Validated, G.Acyclic, Updated;
    match step {
      case Create(byLead, t, r) =>
        if Created(b, byLead, t, r).Ok? {
          CreatedDeps(b, t, r.dependsOn);
          var ids := G.Validated(b.tasks.Keys, b.deps, t, r.dependsOn).value;
          assert forall n :: n in b.deps ==> t !in SetOf(b.deps[n]);
          NewNodeKeepsAcyclic(b.deps, t, ids);
        }
      case Change(actor, t, u, c) =>
        if Updated(b, actor, t, u, c).Ok? {
          UpdateKeepsGraph(b, actor, t, u, c);
        }
      case Delete(t) =>
        if t in b.tasks {
          G.RemovalKeepsAcyclic(b.deps, t);
          forall n | n in b.deps
            ensures SetOf(Without(b.deps[n], t)) == SetOf(b.deps[n]) - {t}
          {
            G.WithoutMeaning(b.deps[n], t);
          }
        }
      case Elsewhere(_, _, _) =>
    }
  }

  lemma CreatedDeps(b: Board, t: TaskId, ids: seq<TaskId>)
    requires G.Validated(b.tasks.Keys, b.deps, t, ids).Ok?
    ensures var stored := G.Validated(b.tasks.Keys, b.deps, t, ids).value;
            t !in stored && SetOf(stored) <= b.tasks.Keys
  {
  }

  // ---------- dependency safety ----------

  // The one-hop reset is enough: nothing beyond the direct dependents can have been relying
  // on the reopened task, because what the reset tasks lose they were not giving: none is done.
  lemma {:induction false} StoredIsSafe(b: Board, t: TaskId, task: Task, deps: Option<seq<TaskId>>)
    requires Safe(b) && t in b.tasks
    requires t !in (if deps.Some? then deps.value else G.DepIds(b.deps, t))
    requires Active(task) ==> !BlockedBy(b, if deps.Some? then deps.value else G.DepIds(b.deps, t))
    ensures Safe(Stored(b, t, task, deps))
  {
    var after := Stored(b, t, task, deps);
    forall x, d | x in after.tasks && Active(after.tasks[x]) && d in G.DepIds(after.deps, x)
      ensures IsDone(after, d)
    {
      if x == t {
        assert IsDone(b, d);
      } else {
        assert after.tasks[x] == b.tasks[x] && G.DepIds(after.deps, x) == G.DepIds(b.deps, x);
        assert IsDone(b, d);
        assert DependsOn(after, x, d);
      }
    }
  }

  // The update a lead can make that no guard stops: new dependencies, not all done, on a
  // task under way or in review.
  predicate LeadBlocksActive(b: Board, actor: Actor, t: TaskId, u: Update) {
    && actor.Lead? && t in b.tasks && Active(b.tasks[t])
    && u.dependsOn.Some? && BlockedBy(b, u.dependsOn.value)
  }

  lemma {:induction false} NewTaskUnblocked(b: Board, actor: Actor, t: TaskId, u: Update, c: Context)
    requires Safe(b) && Updated(b, actor, t, u, c).Ok? && !LeadBlocksActive(b, actor, t, u)
    requires GraphOk(b)
    ensures Active(NewTask(b, actor, t, u, c)) ==> !BlockedBy(b, DepsLeft(b, t, u))
  {
    UpdateAccepted(b, actor, t, u, c);
    if u.dependsOn.Some? {
      AcceptedDeps(b, t, u);
      SameBlocked(b, DepsLeft(b, t, u), u.dependsOn.value);
    }
    hide G.Validated, G.Acyclic, EndRefusal, GateRefusal, AssignmentRefusal, BlockedBy;
  }

  lemma SameBlocked(b: Board, ids: seq<TaskId>, others: seq<TaskId>)
    requires SetOf(ids) == SetOf(others)
    ensures BlockedBy(b, ids) == BlockedBy(b, others)
  {
    assert forall d :: d in ids <==> d in SetOf(ids);
    assert forall d :: d in others <==> d in SetOf(others);
  }

  lemma {:induction false} UpdateKeepsSafe(b: Board, actor: Actor, t: TaskId, u: Update, c: Context)
    requires Safe(b) && GraphOk(b) && Updated(b, actor, t, u, c).Ok? && !LeadBlocksActive(b, actor, t, u)
    ensures Safe(Updated(b, actor, t, u, c).value)
  {
    UpdateAccepted(b, actor, t, u, c);
    NewTaskUnblocked(b, actor, t, u, c);
    NoSelfDependency(b.deps, t);
    if u.dependsOn.Some? {
      AcceptedDeps(b, t, u);
    }
    StoredIsSafe(b, t, NewTask(b, actor, t, u, c), if u.dependsOn.Some? then Some(DepsLeft(b, t, u)) else None);
    hide Safe, GraphOk, Stored, UpdateRefusal, NewTask;
  }

  // A lead's accepted update keeps the board safe if and only if it is not that edit.
  lemma {:induction false} LeadUpdateIsSafeIff(b: Board, t: TaskId, u: Update, c: Context)
    requires Safe(b) && GraphOk(b) && Updated(b, Lead, t, u, c).Ok?
    ensures Safe(Updated(b, Lead, t, u, c).value) <==> !LeadBlocksActive(b, Lead, t, u)
  {
    if !LeadBlocksActive(b, Lead, t, u) {
      UpdateKeepsSafe(b, Lead, t, u, c);
    } else {
      UpdateAccepted(b, Lead, t, u, c);
      AcceptedDeps(b, t, u);
      SameBlocked(b, DepsLeft(b, t, u), u.dependsOn.value);
      var after := Updated(b, Lead, t, u, c).value;
      hide G.Validated, G.Acyclic, GateRefusal, AssignmentRefusal;
      assert after.tasks == b.tasks;
      var d :| d in DepsLeft(b, t, u) && !IsDone(b, d);
      assert d in G.DepIds(after.deps, t) && !IsDone(after, d);
    }
  }

  // And the edit is open to a lead: any unfinished task that does not lead back will do.
  lemma {:induction false} LeadCanBlockActive(b: Board, t: TaskId, d: TaskId, c: Context)
    requires Safe(b) && GraphOk(b) && t in b.tasks && Active(b.tasks[t])
    requires d in b.tasks && d != t && b.tasks[d].status != Done && !G.Reaches(G.EdgesOf(b.deps), d, t)
    ensures var u := Update(None, None, false, false, Some([d]), None, None);
            Updated(b, Lead, t, u, c).Ok? && !Safe(Updated(b, Lead, t, u, c).value)
  {
    var u := Update(None, None, false, false, Some([d]), None, None);
    DedupedMeaning([d]);
    assert SetOf([d]) == {d};
    assert G.EdgesOf(b.deps)[t := {d}].Keys <= b.tasks.Keys;
    G.CyclicIffReachesBack(b.tasks.Keys, G.EdgesOf(b.deps), t, {d});
    assert Deduped([d]) == [d];
    assert NewDeps(b, t, u) == Ok([d]);
    hide G.Validated, G.Acyclic, G.Cyclic, G.Reaches;
    assert Updated(b, Lead, t, u, c).Ok?;
    LeadUpdateIsSafeIff(b, t, u, c);
    assert d in u.dependsOn.value && !IsDone(b, d);
  }

  lemma {:induction false} DeleteKeepsSafe(b: Board, t: TaskId)
    requires Safe(b)
    ensures Safe(Deleted(b, t))
  {
    var after := Deleted(b, t);
    forall x, d | x in after.tasks && Active(after.tasks[x]) && d in G.DepIds(after.deps, x)
      ensures IsDone(after, d)
    {
      G.WithoutMeaning(b.deps[x], t);
      assert d in SetOf(after.deps[x]);
      assert d in SetOf(b.deps[x]) && IsDone(b, d);
    }
  }

  lemma {:induction false} CreateKeepsSafe(b: Board, byLead: bool, t: TaskId, r: NewTaskRequest)
    requires Safe(b) && GraphOk(b) && t !in b.tasks && Created(b, byLead, t, r).Ok?
    ensures Safe(Created(b, byLead, t, r).value)
  {
    CreatedDeps(b, t, r.dependsOn);
    hide G.Validated, G.Acyclic;
    var after := Created(b, byLead, t, r).value;
    forall x, d | x in after.tasks && Active(after.tasks[x]) && d in G.DepIds(after.deps, x)
      ensures IsDone(after, d)
    {
      assert x != t ==> G.DepIds(after.deps, x) == G.DepIds(b.deps, x);
      assert IsDone(b, d);
    }
  }

  // ---------- one hop ----------

  // An update touches the task itself and, when that reopens it, its direct dependents that
  // are not done; those are reset, and no other task changes.
  lemma {:induction false} OnlyOneHop(b: Board, actor: Actor, t: TaskId, u: Update, c: Context, x: TaskId)
    requires GraphOk(b) && Updated(b, actor, t, u, c).Ok?
    ensures var after := Updated(b, actor, t, u, c).value;
            && after.tasks.Keys == b.tasks.Keys
            && after.tasks[t] == NewTask(b, actor, t, u, c)
            && (x in b.tasks && x != t ==>
                  && G.DepIds(after.deps, x) == G.DepIds(b.deps, x)
                  && after.tasks[x] ==
                     if b.tasks[t].status == Done && after.tasks[t].status != Done && DependsOn(b, x, t)
                        && b.tasks[x].status != Done
                     then Reset(b.tasks[x]) else b.tasks[x])
  {
    UpdateAccepted(b, actor, t, u, c);
    NoSelfDependency(b.deps, t);
    if u.dependsOn.Some? {
      AcceptedDeps(b, t, u);
    }
    hide GraphOk, UpdateRefusal, NewTask, DepsLeft;
  }

  // ---------- the gates into done ----------

  ghost predicate PassedGates(b: Board, t: TaskId, after: Board) {
    && t in b.tasks && b.tasks[t].status != Done
    && !BlockedBy(b, G.DepIds(after.deps, t))
    && (b.rules.approvalForDone ==> A.ApprovedLinked(b.approvals, b.id, t))
    && (b.rules.reviewBeforeDone ==> b.tasks[t].status == Review)
  }

  // Whoever moves a task into done, its dependencies as the request leaves them are done and
  // the board's rules are met; and no other task becomes done on the way.
  lemma {:induction false} DoneOnlyThroughGates(b: Board, actor: Actor, t: TaskId, u: Update, c: Context, x: TaskId)
    requires GraphOk(b) && Updated(b, actor, t, u, c).Ok? && x in b.tasks
    requires b.tasks[x].status != Done && Updated(b, actor, t, u, c).value.tasks[x].status == Done
    ensures x == t && PassedGates(b, t, Updated(b, actor, t, u, c).value)
    ensures forall d :: d in G.DepIds(Updated(b, actor, t, u, c).value.deps, t) ==> IsDone(Updated(b, actor, t, u, c).value, d)
  {
    OnlyOneHop(b, actor, t, u, c, x);
    UpdateAccepted(b, actor, t, u, c);
    var after := Updated(b, actor, t, u, c).value;
    assert G.DepIds(after.deps, t) == DepsLeft(b, t, u);
    GatesHeld(b, actor, t, u, c);
    forall d | d in G.DepIds(after.deps, t)
      ensures IsDone(after, d)
    {
      assert IsDone(b, d);
      OnlyOneHop(b, actor, t, u, c, d);
      hide Updated;
    }
  }

  lemma {:induction false} GatesHeld(b: Board, actor: Actor, t: TaskId, u: Update, c: Context)
    requires Updated(b, actor, t, u, c).Ok?
    requires b.tasks[t].status != Done && NewTask(b, actor, t, u, c).status == Done
    ensures !BlockedBy(b, DepsLeft(b, t, u))
    ensures b.rules.approvalForDone ==> A.ApprovedLinked(b.approvals, b.id, t)
    ensures b.rules.reviewBeforeDone ==> b.tasks[t].status == Review
  {
    UpdateAccepted(b, actor, t, u, c);
    hide G.Validated, AssignmentRefusal, BlockedBy, A.ApprovedLinked, PendingLinked, NeedsComment;
  }

  // While the rule holds, a requested status change does not get past a pending approval.
  lemma {:induction false} PendingApprovalBlocks(b: Board, actor: Actor, t: TaskId, u: Update, c: Context)
    requires Updated(b, actor, t, u, c).Ok? && b.rules.blockWithPending && PendingLinked(b, t)
    requires u.status.Some? && u.status.value != b.tasks[t].status
    ensures NewTask(b, actor, t, u, c).status == b.tasks[t].status
  {
    UpdateAccepted(b, actor, t, u, c);
    hide G.Validated, AssignmentRefusal, BlockedBy, A.ApprovedLinked, PendingLinked, NeedsComment;
  }

  // ---------- timing ----------

  lemma {:induction false} UpdateKeepsTimed(b: Board, actor: Actor, t: TaskId, u: Update, c: Context)
    requires Timed(b) && Updated(b, actor, t, u, c).Ok?
    ensures Timed(Updated(b, actor, t, u, c).value)
  {
    UpdateAccepted(b, actor, t, u, c);
    hide G.Validated, AssignmentRefusal, BlockedBy, EndRefusal, GateRefusal, DepsLeft, NewDeps;
    var task := NewTask(b, actor, t, u, c);
    assert task.status == Inbox || task.status == Review ==> task.inProgressAt.None?;
  }

  // ---------- steps and runs ----------

  lemma {:induction false} StepKeepsTimed(b: Board, step: Step)
    requires Timed(b)
    ensures Timed(Next(b, step))
  {
    hide Updated, G.Validated;
    if step.Change? && Updated(b, step.actor, step.t, step.update, step.context).Ok? {
      UpdateKeepsTimed(b, step.actor, step.t, step.update, step.context);
    }
  }

  predicate LeadEdit(b: Board, step: Step) {
    step.Change? && LeadBlocksActive(b, step.actor, step.t, step.update)
  }

  lemma {:induction false} StepKeepsSafe(b: Board, step: Step)
    requires Safe(b) && GraphOk(b) && StepAllowed(b, step) && !LeadEdit(b, step)
    ensures Safe(Next(b, step))
  {
    hide Updated, Created, GraphOk, Deleted, LeadBlocksActive;
    match step {
      case Create(byLead, t, r) => if Created(b, byLead, t, r).Ok? { CreateKeepsSafe(b, byLead, t, r); }
      case Change(actor, t, u, c) => if Updated(b, actor, t, u, c).Ok? { UpdateKeepsSafe(b, actor, t, u, c); }
      case Delete(t) => if t in b.tasks { DeleteKeepsSafe(b, t); }
      case Elsewhere(_, _, _) =>
    }
  }

  // The states a run goes through.
  ghost function StateAt(b: Board, steps: seq<Step>, k: nat): Board
    requires k <= |steps|
    decreases k
  {
    if k == 0 then b else Next(StateAt(b, steps, k - 1), steps[k - 1])
  }

  ghost predicate IsRun(b: Board, steps: seq<Step>) {
    forall k :: 0 <= k < |steps| ==> StepAllowed(StateAt(b, steps, k), steps[k])
  }

  // Over every run of requests by any actors, but for that one edit by a lead, every task
  // under way or in review has all its dependencies done.
  lemma {:induction false} RunsStaySafe(b: Board, steps: seq<Step>, k: nat)
    requires Safe(b) && GraphOk(b) && IsRun(b, steps) && k <= |steps|
    requires forall j :: 0 <= j < |steps| ==> !LeadEdit(StateAt(b, steps, j), steps[j])
    ensures Safe(StateAt(b, steps, k)) && GraphOk(StateAt(b, steps, k))
    decreases k
  {
    hide Safe, GraphOk, Next, LeadEdit;
    if k > 0 {
      RunsStaySafe(b, steps, k - 1);
      StepKeepsSafe(StateAt(b, steps, k - 1), steps[k - 1]);
      StepKeepsGraph(StateAt(b, steps, k - 1), steps[k - 1]);
    }
  }

  // Over every run without exception, clocks stay stopped in inbox and review.
  lemma {:induction false} RunsStayTimed(b: Board, steps: seq<Step>, k: nat)
    requires Timed(b) && IsRun(b, steps) && k <= |steps|
    ensures Timed(StateAt(b, steps, k))
    decreases k
  {
    hide Timed, Next;
    if k > 0 {
      RunsStayTimed(b, steps, k - 1);
      StepKeepsTimed(StateAt(b, steps, k - 1), steps[k - 1]);
    }
  }

  // And the graph stays on the board and free of cycles.
  lemma {:induction false} RunsKeepGraph(b: Board, steps: seq<Step>, k: nat)
    requires GraphOk(b) && IsRun(b, steps) && k <= |steps|
    ensures GraphOk(StateAt(b, steps, k))
    decreases k
  {
    hide GraphOk, Next;
    if k > 0 {
      RunsKeepGraph(b, steps, k - 1);
      StepKeepsGraph(StateAt(b, steps, k - 1), steps[k - 1]);
    }
  }

  // The step that made a task done: its creation as done, or an update through the gates.
  ghost predicate MadeDone(b: Board, step: Step, t: TaskId) {
    || (step.Create? && step.t == t && step.request.status == Done)
    || (step.Change? && step.t == t && PassedGates(b, t, Next(b, step)))
  }

  // Over every run: a task that is done was done from the start, was created done, or passed
  // the gates in some step of the run.
  lemma {:induction false} DoneHasAReason(b: Board, steps: seq<Step>, k: nat, t: TaskId)
    requires GraphOk(b) && IsRun(b, steps) && k <= |steps| && IsDone(StateAt(b, steps, k), t)
    ensures IsDone(b, t) || exists j :: 0 <= j < k && MadeDone(StateAt(b, steps, j), steps[j], t)
    decreases k
  {
    hide GraphOk, Next, MadeDone;
    if k > 0 {
      var before, step := StateAt(b, steps, k - 1), steps[k - 1];
      if IsDone(before, t) {
        DoneHasAReason(b, steps, k - 1, t);
      } else {
        RunsKeepGraph(b, steps, k - 1);
        StepMadeDone(before, step, t);
        assert MadeDone(StateAt(b, steps, k - 1), steps[k - 1], t);
      }
    }
  }

  lemma {:induction false} StepMadeDone(b: Board, step: Step, t: TaskId)
    requires GraphOk(b) && StepAllowed(b, step) && !IsDone(b, t) && IsDone(Next(b, step), t)
    ensures MadeDone(b, step, t)
  {
    hide GraphOk, G.Validated, Updated, PassedGates;
    if step.Change? && Updated(b, step.actor, step.t, step.update, step.context).Ok? {
      OnlyOneHop(b, step.actor, step.t, step.update, step.context, t);
      DoneOnlyThroughGates(b, step.actor, step.t, step.update, step.context, t);
    }
  }

  // While tasks remain, one of them is not waiting for any other: the board never locks up.
  lemma {:induction false} SomeTaskCanStart(b: Board) returns (t: TaskId)
    requires GraphOk(b) && exists x :: x in b.tasks && !IsDone(b, x)
    ensures t in b.tasks && !IsDone(b, t) && !BlockedBy(b, G.DepIds(b.deps, t))
  {
    var open := set x | x in b.tasks && !IsDone(b, x);
    var some :| some in b.tasks && !IsDone(b, some);
    assert some in open;
    t := G.SomeTaskIsUnblocked(G.EdgesOf(b.deps), open);
    forall d | d in G.DepIds(b.deps, t)
      ensures IsDone(b, d)
    {
      assert d in SetOf(b.deps[t]) && d in b.tasks;
      assert d in G.Next(G.EdgesOf(b.deps), t) && d !in G.Next(G.EdgesOf(b.deps), t) * open;
    }
  }
}
