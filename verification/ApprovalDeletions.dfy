/**
 Which deletions can end up in a cycle of waits: exactly those of tasks that the column of some
 approval names.
 */
module ApprovalDeletions {
  import opened Prelude
  import opened ApprovalLinks
  import opened ApprovalProtocol
  import opened ApprovalDeadlock
  import opened ApprovalCycles
  import G = DependencyGraph

  // ---------- resolving what is pending ----------

  // The same tables but for statuses.
  ghost predicate SameButStatus(s: State, after: State) {
    && after.tasks == s.tasks && after.store.links == s.store.links
    && after.store.approvals.Keys == s.store.approvals.Keys
    && forall a :: a in s.store.approvals ==>
         after.store.approvals[a].(status := s.store.approvals[a].status) == s.store.approvals[a]
  }

  function PendingOnes(store: Store): set<ApprovalId> {
    set a | a in store.approvals && store.approvals[a].status == Pending
  }

  lemma {:induction false} ResolveSteps(s: State, a: ApprovalId)
    requires a in s.store.approvals && s.store.approvals[a].status == Pending
    ensures var board, txn := s.store.approvals[a].board, Resolving(a, Approved, Pending, Locks(true, {}, [Row(a)]));
            var done := Resolving(a, Approved, Pending, Locks(true, {Row(a)}, []));
            && Enabled(s, BeginUpdate(a, board, Approved)) && Step(s, BeginUpdate(a, board, Approved)) == With(s, [txn])
            && Taken(txn, 1) == done
            && Enabled(With(s, [done]), Commit(|s.txns|))
            && Step(With(s, [done]), Commit(|s.txns|)) == With(s, [Ended]).(store := WithStatus(s.store, a, Approved))
  {
    var done := Resolving(a, Approved, Pending, Locks(true, {Row(a)}, []));
    assert [Row(a)][..1] == [Row(a)] && [Row(a)][1..] == [];
    assert With(s, [done]).txns[|s.txns| := Ended] == With(s, [Ended]).txns;
  }

  lemma {:induction false} OneResolved(s: State, a: ApprovalId) returns (acts: seq<Action>, last: State)
    requires Inv(s) && Quiet(s) && a in s.store.approvals && s.store.approvals[a].status == Pending
    ensures Run(s, acts, last) && Inv(last) && Quiet(last) && SameButStatus(s, last)
    ensures PendingOnes(last.store) == PendingOnes(s.store) - {a}
  {
    hide Run, Enabled, Step, Inv, Taken;
    var n, board, txn := |s.txns|, s.store.approvals[a].board, Resolving(a, Approved, Pending, Locks(true, {}, [Row(a)]));
    ResolveSteps(s, a);
    NoSteps(s);
    OneMoreStep(s, [], s, BeginUpdate(a, board, Approved));
    var locked := LocksTaken(s, [] + [BeginUpdate(a, board, Approved)], s, [txn], 0, 1);
    assert [txn][0 := Taken(txn, 1)] == [Taken(txn, 1)];
    OneMoreStep(s, locked, With(s, [Taken(txn, 1)]), Commit(n));
    acts := locked + [Commit(n)];
    last := With(s, [Ended]).(store := WithStatus(s.store, a, Approved));
    EveryRunIsSafe(s, acts, last);
  }

  // From a quiet state everything pending can be resolved.
  lemma {:induction false} AllResolved(s: State) returns (acts: seq<Action>, last: State)
    requires Inv(s) && Quiet(s)
    ensures Run(s, acts, last) && Inv(last) && Quiet(last) && SameButStatus(s, last) && PendingOnes(last.store) == {}
    decreases |PendingOnes(s.store)|
  {
    hide Run, Inv, Quiet;
    if PendingOnes(s.store) == {} {
      NoSteps(s);
      acts, last := [], s;
    } else {
      var a :| a in PendingOnes(s.store);
      var first, mid := OneResolved(s, a);
      var second;
      second, last := AllResolved(mid);
      RunsChain(s, first, mid, second, last);
      acts := first + second;
    }
  }

  // ---------- a deletion in a cycle ----------

  ghost predicate InCycle(txns: seq<Txn>, i: nat) {
    exists p :: RoundTrip(txns, p, i)
  }

  ghost predicate RoundTrip(txns: seq<Txn>, p: seq<nat>, i: nat) {
    G.IsPath(Waits(txns), p) && |p| > 1 && p[0] == i && p[|p| - 1] == i
  }

  // The deletion of t that found these approvals naming it.
  predicate DeletionAt(s: State, i: nat, t: TaskId, primary: set<ApprovalId>) {
    i < |s.txns| && s.txns[i].Deleting? && s.txns[i].task == t && s.txns[i].primary == primary
  }

  // From every quiet state: while the column of some approval names a task, its deletion can
  // end up in a cycle.
  lemma {:induction false} DeletionCanDeadlock(s: State, t: TaskId) returns (acts: seq<Action>, last: State, i: nat)
    requires Inv(s) && Quiet(s) && t in s.tasks && PrimaryOf(s.store, t) != {}
    ensures Run(s, acts, last) && DeletionAt(last, i, t, PrimaryOf(s.store, t)) && InCycle(last.txns, i)
  {
    hide Run, Inv, Quiet, WaitsFor, FirstOf, PendingFor;
    var first, mid := AllResolved(s);
    SamePrimary(s, mid, t);
    TablesOfInv(mid);
    FirstIsThere(mid, t);
    NothingInTheWay(mid, FirstOf(mid.store, t));
    hide CanRestore, PrimaryOf;
    var second;
    second, last := RestoreAndDeleteCanDeadlock(mid, t);
    RunsChain(s, first, mid, second, last);
    acts, i := first + second, |mid.txns| + 1;
    WaitersRun(last.txns, i, |mid.txns|);
    TwoWaitRound(last.txns, i, |mid.txns|);
  }

  lemma FirstIsThere(s: State, t: TaskId)
    requires TablesOk(s) && PrimaryOf(s.store, t) != {}
    ensures FirstOf(s.store, t) in s.store.approvals
  {
    hide FirstLocked, PlanFor, TablesOk;
    var m := PlanCourse(s, t);
  }

  lemma TablesOfInv(s: State)
    requires Inv(s)
    ensures TablesOk(s)
  {
  }

  lemma SamePrimary(s: State, after: State, t: TaskId)
    requires SameButStatus(s, after)
    ensures PrimaryOf(after.store, t) == PrimaryOf(s.store, t)
  {
    assert forall a :: a in s.store.approvals ==> after.store.approvals[a].task == s.store.approvals[a].task;
  }

  lemma NothingInTheWay(s: State, a: ApprovalId)
    requires PendingOnes(s.store) == {}
    ensures a in s.store.approvals ==> CanRestore(s, a)
  {
    hide Effective;
    forall b | b in s.store.approvals
      ensures s.store.approvals[b].status != Pending
    {
      assert b !in PendingOnes(s.store);
    }
  }

  lemma TwoWaitRound(txns: seq<Txn>, i: nat, j: nat)
    requires WaitsFor(txns, i, j) && WaitsFor(txns, j, i)
    ensures InCycle(txns, i)
  {
    WaitIsEdge(txns, i, j);
    WaitIsEdge(txns, j, i);
    hide WaitsFor, Waits;
    assert RoundTrip(txns, [i, j, i], i);
  }

  // ---------- and otherwise not ----------

  // Only the reading of a deletion waits for the links of a task, and a deletion that found
  // nothing holds no more than these while it waits.
  ghost predicate ShapeOk(txn: Txn) {
    HasLocks(txn) ==>
      && (forall k :: 0 <= k < |txn.locks.rest| ==> !txn.locks.rest[k].LinkRows?)
      && (txn.Deleting? && txn.primary == {} && txn.plan.Some? && txn.locks.rest != [] ==>
            txn.locks.rest == [Exclusive(txn.task)] && forall l :: l in txn.locks.held ==> l.LinkRows?)
  }

  ghost predicate ShapeInv(s: State) {
    forall i :: 0 <= i < |s.txns| ==> ShapeOk(s.txns[i])
  }

  lemma {:induction false} MoveLocksShape(order: seq<ApprovalId>, moves: map<ApprovalId, Option<TaskId>>)
    ensures forall k :: 0 <= k < |MoveLocks(order, moves)| ==> !MoveLocks(order, moves)[k].LinkRows?
  {
    if order != [] {
      MoveLocksShape(order[1..], moves);
    }
  }

  lemma {:induction false} PlannedShape(store: Store, txn: Txn)
    requires txn.Deleting?
    ensures ShapeOk(Planned(store, txn))
  {
    var plan := PlanFor(store, txn.task, txn.primary);
    hide Sorted, MoveLocks, PlanFor;
    MoveLocksShape(Sorted(MovedOnes(plan, true)), plan.moves);
    MoveLocksShape(Sorted(MovedOnes(plan, false)), plan.moves);
    if txn.primary == {} {
      NothingPlanned(store, txn);
    }
  }

  lemma {:induction false} OwnStepShape(s: State, act: Action)
    requires Enabled(s, act) && ActorOf(act).Some? && ShapeInv(s)
    ensures ShapeOk(Step(s, act).txns[ActorOf(act).value])
  {
    hide Committed, Conflict, Sorted, Planned, Linked, Free;
    assert ShapeOk(s.txns[ActorOf(act).value]);
    if act.ReadRemaining? {
      PlannedShape(s.store, s.txns[act.i]);
    }
  }

  lemma {:induction false} StepShape(s: State, act: Action)
    requires Inv(s) && ShapeInv(s) && Enabled(s, act)
    ensures ShapeInv(Step(s, act))
  {
    var s' := Step(s, act);
    if ActorOf(act).Some? {
      SameLength(s, act);
      OwnStepShape(s, act);
    } else {
      BegunShape(s, act);
    }
    hide Inv, ShapeOk, Step, Enabled;
    forall j | 0 <= j < |s'.txns| && j < |s.txns| && ActorOf(act) != Some(j)
      ensures ShapeOk(s'.txns[j])
    {
      OthersKept(s, act, j);
    }
  }

  lemma {:induction false} BegunShape(s: State, act: Action)
    requires Enabled(s, act) && ActorOf(act).None?
    ensures forall j :: |s.txns| <= j < |Step(s, act).txns| ==> ShapeOk(Step(s, act).txns[j])
  {
    hide Sorted;
  }

  lemma {:induction false} RunShape(s: State, acts: seq<Action>, last: State)
    requires Inv(s) && ShapeInv(s) && Run(s, acts, last)
    ensures Inv(last) && ShapeInv(last)
    decreases |acts|
  {
    hide Inv, ShapeInv, Step, Enabled;
    if acts != [] {
      StepKeeps(s, acts[0]);
      StepShape(s, acts[0]);
      RunShape(Step(s, acts[0]), acts[1..], last);
    }
  }

  // Who waits for such a deletion is not waited for.
  lemma {:induction false} WaiterIsFree(s: State, i: nat, k: nat, j: nat)
    requires Inv(s) && ShapeInv(s) && i < |s.txns| && s.txns[i].Deleting? && s.txns[i].primary == {}
    requires Want(s.txns[i]).Some? && WaitsFor(s.txns, k, i)
    ensures !WaitsFor(s.txns, j, k)
  {
    hide TablesOk, OnePending, Apart, LocksOk, UpdateOk, DeleteOk;
    assert TxnOk(s, s.txns[i]) && TxnOk(s, s.txns[k]);
    assert ShapeOk(s.txns[i]) && ShapeOk(s.txns[k]);
  }

  lemma {:induction false} NotInCycle(s: State, i: nat)
    requires Inv(s) && ShapeInv(s) && i < |s.txns| && s.txns[i].Deleting? && s.txns[i].primary == {}
    ensures !InCycle(s.txns, i)
  {
    hide Inv, ShapeInv, Waits, WaitsFor, Want;
    if p :| RoundTrip(s.txns, p, i) {
      var n := |p|;
      assert p[0 + 1] in G.Next(Waits(s.txns), p[0]) && p[n - 2 + 1] in G.Next(Waits(s.txns), p[n - 2]);
      WaitIsEdge(s.txns, i, p[1]);
      WaitIsEdge(s.txns, p[n - 2], i);
      WaiterWants(s.txns, i, p[1]);
      NotForItself(s.txns, p[n - 2], i);
      assert p[n - 3 + 1] in G.Next(Waits(s.txns), p[n - 3]);
      WaitIsEdge(s.txns, p[n - 3], p[n - 2]);
      WaiterIsFree(s, i, p[n - 2], p[n - 3]);
    }
  }

  lemma NotForItself(txns: seq<Txn>, i: nat, j: nat)
    ensures WaitsFor(txns, i, j) ==> i != j
  {
  }

  ghost predicate CanBeInCycle(s: State, t: TaskId, primary: set<ApprovalId>) {
    exists acts, last, i :: Run(s, acts, last) && DeletionAt(last, i, t, primary) && InCycle(last.txns, i)
  }

  // From a quiet state, a deletion of a task that finds the approvals whose column names it
  // there can be in a cycle if and only if there is one.
  lemma {:induction false} DeletionInCycleIff(s: State, t: TaskId)
    requires Inv(s) && Quiet(s) && t in s.tasks
    ensures CanBeInCycle(s, t, PrimaryOf(s.store, t)) <==> PrimaryOf(s.store, t) != {}
  {
    hide Inv, Run, InCycle, PrimaryOf;
    if PrimaryOf(s.store, t) != {} {
      var acts, last, i := DeletionCanDeadlock(s, t);
    }
    if CanBeInCycle(s, t, {}) {
      var acts, last, i :| Run(s, acts, last) && DeletionAt(last, i, t, {}) && InCycle(last.txns, i);
      QuietShape(s);
      RunShape(s, acts, last);
      NotInCycle(last, i);
    }
  }

  lemma QuietShape(s: State)
    requires Quiet(s)
    ensures ShapeInv(s)
  {
    assert forall i :: 0 <= i < |s.txns| ==> s.txns[i] in s.txns;
  }
}
