/**
 Requests may name tasks of other boards, while the conflict check looks at one board. Which
 steps let a task have pending approvals on two boards, and that requests which stay on their
 own board never do.
 */
module ApprovalBoards {
  import opened Dedup
  import opened ApprovalLinks
  import opened ApprovalProtocol
  import opened ApprovalDeadlock
  import opened ApprovalCycles

  predicate PendingAbout(store: Store, a: ApprovalId, t: TaskId) {
    About(store, a, t) && store.approvals[a].status == Pending
  }

  ghost predicate OnePendingOverall(store: Store) {
    forall a: ApprovalId, b: ApprovalId, t: TaskId :: PendingAbout(store, a, t) && PendingAbout(store, b, t) ==> a == b
  }

  lemma PendingOnItsBoard(store: Store, a: ApprovalId, t: TaskId)
    ensures PendingAbout(store, a, t) <==> a in store.approvals && PendingFor(store, store.approvals[a].board, a, t)
    ensures forall board :: PendingFor(store, board, a, t) ==> PendingAbout(store, a, t) && store.approvals[a].board == board
  {
    hide Effective;
  }

  // ---------- what each step makes pending ----------

  lemma CreatedPending(store: Store, txn: Txn, a: ApprovalId, t: TaskId)
    requires txn.Creating? && txn.id !in store.approvals
    ensures PendingAbout(WithApproval(store, txn.id, txn.board, txn.ids, txn.status), a, t)
            <==> if a == txn.id then txn.status == Pending && t in txn.ids else PendingAbout(store, a, t)
  {
    CreateEffect(store, txn.id, txn.board, txn.ids, txn.status);
    hide Effective, Aligned;
  }

  lemma WrittenPending(store: Store, id: ApprovalId, status: ApprovalStatus, a: ApprovalId, t: TaskId)
    ensures PendingAbout(WithStatus(store, id, status), a, t)
            <==> if a == id then status == Pending && About(store, id, t) else PendingAbout(store, a, t)
  {
    hide Linked;
  }

  lemma {:induction false} DeletedPending(store: Store, u: TaskId, a: ApprovalId, t: TaskId)
    requires Aligned(store)
    ensures PendingAbout(WithoutTask(store, u), a, t) <==> t != u && PendingAbout(store, a, t)
  {
    hide PendingFor, WithoutTask, PendingAbout;
    PendingOnItsBoard(store, a, t);
    PendingOnItsBoard(WithoutTask(store, u), a, t);
    if a in store.approvals {
      PendingAfterDelete(store, u, store.approvals[a].board, a, t);
    }
    if a in WithoutTask(store, u).approvals {
      PendingAfterDelete(store, u, WithoutTask(store, u).approvals[a].board, a, t);
    }
  }

  // ---------- the steps that break it ----------

  // A create commits a pending approval while some board has one for one of its tasks.
  ghost predicate CreatesSecond(s: State, txn: Txn) {
    && txn.Creating? && txn.status == Pending && SetOf(txn.ids) <= s.tasks
    && exists a: ApprovalId, t: TaskId :: t in txn.ids && PendingAbout(s.store, a, t)
  }

  // An approval becomes pending again while another is pending for one of its tasks.
  ghost predicate RestoresSecond(s: State, txn: Txn) {
    && txn.Restoring?
    && exists a: ApprovalId, t: TaskId :: a != txn.id && About(s.store, txn.id, t) && PendingAbout(s.store, a, t)
  }

  lemma {:induction false} CreateKeepsOneOverall(s: State, i: nat)
    requires Inv(s) && Enabled(s, Commit(i)) && OnePendingOverall(s.store) && s.txns[i].Creating?
    ensures OnePendingOverall(Step(s, Commit(i)).store) <==> !CreatesSecond(s, s.txns[i])
  {
    hide PendingFor, LocksOk, DeleteOk, UpdateOk, TablesOk, WithApproval, OnePending, About;
    var txn, after := s.txns[i], Step(s, Commit(i)).store;
    assert TxnOk(s, txn);
    assert forall t: TaskId :: !PendingAbout(s.store, txn.id, t) by {
      forall t: TaskId
        ensures !PendingAbout(s.store, txn.id, t)
      {
        PendingOnItsBoard(s.store, txn.id, t);
      }
    }
    if SetOf(txn.ids) <= s.tasks {
      forall a: ApprovalId, t: TaskId
        ensures PendingAbout(after, a, t) <==> if a == txn.id then txn.status == Pending && t in txn.ids else PendingAbout(s.store, a, t)
      {
        CreatedPending(s.store, txn, a, t);
      }
      hide PendingAbout;
      if txn.status == Pending && OnePendingOverall(after) {
        forall a: ApprovalId, t: TaskId | t in txn.ids
          ensures !PendingAbout(s.store, a, t)
        {
          assert PendingAbout(after, txn.id, t);
          assert PendingAbout(after, a, t) ==> a == txn.id;
        }
      }
    }
  }

  lemma {:induction false} RestoreKeepsOneOverall(s: State, i: nat)
    requires Enabled(s, Commit(i)) && OnePendingOverall(s.store) && s.txns[i].Restoring?
    ensures OnePendingOverall(Step(s, Commit(i)).store) <==> !RestoresSecond(s, s.txns[i])
  {
    hide About, WithStatus;
    var txn, after := s.txns[i], Step(s, Commit(i)).store;
    var id := txn.id;
    forall a: ApprovalId, t: TaskId
      ensures PendingAbout(after, a, t) <==> if a == id then About(s.store, txn.id, t) else PendingAbout(s.store, a, t)
    {
      WrittenPending(s.store, txn.id, Pending, a, t);
    }
    hide PendingAbout;
    if OnePendingOverall(after) {
      forall a: ApprovalId, t: TaskId | a != id && About(s.store, txn.id, t)
        ensures !PendingAbout(s.store, a, t)
      {
        assert PendingAbout(after, id, t);
        assert PendingAbout(after, a, t) ==> a == id;
      }
    }
  }

  // What was not pending before a resolving or deleting commit is not pending after it.
  lemma {:induction false} NothingNewPending(s: State, i: nat, a: ApprovalId, t: TaskId)
    requires Inv(s) && Enabled(s, Commit(i)) && (s.txns[i].Resolving? || s.txns[i].Deleting?)
    requires PendingAbout(Step(s, Commit(i)).store, a, t)
    ensures PendingAbout(s.store, a, t)
  {
    hide PendingAbout, LocksOk, UpdateOk, DeleteOk, OnePending, PlanCommits, PlanApplied, WithStatus, Aligned, WithoutTask;
    var txn := s.txns[i];
    assert TxnOk(s, txn);
    if txn.Resolving? {
      if txn.target != txn.prior {
        WrittenPending(s.store, txn.id, txn.target, a, t);
      }
    } else if txn.plan.Some? && PlanCommits(s.store, s.tasks, txn.task, txn.plan.value) {
      DeleteIsAtomic(s, txn);
      DeletedPending(s.store, txn.task, a, t);
    }
  }

  lemma OnlyCommitsWrite(s: State, act: Action)
    requires Enabled(s, act) && !act.Commit?
    ensures Step(s, act).store == s.store
  {
  }

  // Among all steps only these two ever give a task a second pending approval.
  lemma {:induction false} StepKeepsOneOverallIff(s: State, act: Action)
    requires Inv(s) && Enabled(s, act) && OnePendingOverall(s.store)
    ensures OnePendingOverall(Step(s, act).store)
            <==> !(act.Commit? && (CreatesSecond(s, s.txns[act.i]) || RestoresSecond(s, s.txns[act.i])))
  {
    hide Inv, PendingAbout, Step;
    if !act.Commit? {
      OnlyCommitsWrite(s, act);
    } else if s.txns[act.i].Creating? {
      CreateKeepsOneOverall(s, act.i);
    } else if s.txns[act.i].Restoring? {
      RestoreKeepsOneOverall(s, act.i);
    } else {
      var after := Step(s, act).store;
      forall a: ApprovalId, b: ApprovalId, t: TaskId | PendingAbout(after, a, t) && PendingAbout(after, b, t)
        ensures a == b
      {
        NothingNewPending(s, act.i, a, t);
        NothingNewPending(s, act.i, b, t);
      }
    }
  }

  // ---------- both happen ----------

  // Alone, a pending create for a task without a pending approval on its board goes through.
  lemma {:induction false} LoneCreate(s: State, id: ApprovalId, board: BoardId,
                                      t: TaskId) returns (acts: seq<Action>, last: State)
    requires Inv(s) && Quiet(s) && id !in s.issued && t in s.tasks
    requires forall a: ApprovalId :: !PendingFor(s.store, board, a, t)
    ensures Run(s, acts, last) && Inv(last) && Quiet(last)
    ensures last.store == WithApproval(s.store, id, board, [t], Pending)
    ensures last.tasks == s.tasks && last.issued == s.issued + {id}
  {
    hide Inv, PendingFor, WithApproval, Run, OnePending, Aligned, RefsExist, Enabled, Step, Quiet;
    var n := |s.txns|;
    var begin := BeginCreate(id, board, [t], Pending);
    var base := s.(named := s.named + SetOf([t]), issued := s.issued + {id});
    NoSteps(s);
    BeginAmong(s, [], id, board, [t], Pending);
    assert With(s, []) == s;
    OneMoreStep(s, [], s, begin);
    StillQuiet(s, base);
    LoneLocks(base, id, board, t);
    LoneCommits(base, id, board, t);
    var waiting, locked, checked := Lone(id, board, t, false, false), Lone(id, board, t, true, false), Lone(id, board, t, true, true);
    assert [] + [BegunCreate(id, board, [t], Pending)] == [waiting];
    OneMoreStep(s, [] + [begin], With(base, [waiting]), TakeLock(n));
    OneMoreStep(s, [] + [begin] + [TakeLock(n)], With(base, [locked]), Check(n));
    OneMoreStep(s, [] + [begin] + [TakeLock(n)] + [Check(n)], With(base, [checked]), Commit(n));
    acts := [] + [begin] + [TakeLock(n)] + [Check(n)] + [Commit(n)];
    last := Step(With(base, [checked]), Commit(n));
    EveryRunIsSafe(s, acts, last);
    EndsQuiet(base, last);
  }

  // A pending create about one task: before its lock, before its check, before its commit.
  function Lone(id: ApprovalId, board: BoardId, t: TaskId, holds: bool, checked: bool): Txn {
    Creating(id, board, [t], Pending, Locks(checked, if holds then {Exclusive(t)} else {}, if holds then [] else [Exclusive(t)]))
  }

  lemma EndsQuiet(base: State, last: State)
    requires Quiet(base) && last.txns == base.txns + [Ended]
    ensures Quiet(last)
  {
  }

  lemma {:induction false} LoneLocks(s: State, id: ApprovalId, board: BoardId, t: TaskId)
    requires Quiet(s) && t in s.tasks
    ensures BegunCreate(id, board, [t], Pending) == Lone(id, board, t, false, false)
    ensures Enabled(With(s, [Lone(id, board, t, false, false)]), TakeLock(|s.txns|))
    ensures Step(With(s, [Lone(id, board, t, false, false)]), TakeLock(|s.txns|)) == With(s, [Lone(id, board, t, true, false)])
  {
    hide Enabled, Step;
    SortedOne(t);
    assert SetOf([t]) == {t} && TaskLocks([t]) == [Exclusive(t)];
    hide Sorted;
    var waiting, locked := Lone(id, board, t, false, false), Lone(id, board, t, true, false);
    TakeAmong(s, [waiting], 0);
    assert Locked(s.store, s.tasks, waiting) == locked;
    assert [waiting][0 := locked] == [locked];
  }

  lemma {:induction false} LoneCommits(s: State, id: ApprovalId, board: BoardId, t: TaskId)
    requires t in s.tasks && forall a: ApprovalId :: !PendingFor(s.store, board, a, t)
    ensures var n := |s.txns|;
            && Enabled(With(s, [Lone(id, board, t, true, false)]), Check(n))
            && Step(With(s, [Lone(id, board, t, true, false)]), Check(n)) == With(s, [Lone(id, board, t, true, true)])
            && Enabled(With(s, [Lone(id, board, t, true, true)]), Commit(n))
            && Step(With(s, [Lone(id, board, t, true, true)]), Commit(n))
               == With(s, [Ended]).(store := WithApproval(s.store, id, board, [t], Pending))
  {
    hide PendingFor, WithApproval;
    var locked, checked := Lone(id, board, t, true, false), Lone(id, board, t, true, true);
    assert !Conflict(s.store, board, [t], id);
    assert Checked(s.store, locked) == checked;
    assert SetOf([t]) == {t};
    assert With(s, [locked]).txns[|s.txns| := checked] == With(s, [checked]).txns;
    assert With(s, [checked]).txns[|s.txns| := Ended] == With(s, [Ended]).txns;
  }

  // From every quiet state a task free on two boards can end up pending on both.
  lemma {:induction false} TwoBoardsTwoPending(s: State, t: TaskId, board: BoardId, other: BoardId, id: ApprovalId,
                                               id2: ApprovalId)
    returns (acts: seq<Action>, last: State)
    requires Inv(s) && Quiet(s) && t in s.tasks && board != other
    requires id !in s.issued && id2 !in s.issued && id != id2
    requires forall a: ApprovalId :: !PendingFor(s.store, board, a, t) && !PendingFor(s.store, other, a, t)
    ensures Run(s, acts, last) && PendingAbout(last.store, id, t) && PendingAbout(last.store, id2, t)
  {
    hide Inv, Run, Quiet, PendingFor, WithApproval;
    var mid, first, second;
    first, mid := LoneCreate(s, id, board, t);
    IssuedFirst(s, id);
    IssuedFirst(mid, id2);
    forall a: ApprovalId
      ensures !PendingFor(mid.store, other, a, t)
    {
      PendingAfterCreate(s.store, id, board, [t], Pending, other, a, t);
    }
    PendingAfterCreate(s.store, id, board, [t], Pending, board, id, t);
    second, last := LoneCreate(mid, id2, other, t);
    RunsChain(s, first, mid, second, last);
    acts := first + second;
    PendingAfterCreate(mid.store, id2, other, [t], Pending, board, id, t);
    PendingAfterCreate(mid.store, id2, other, [t], Pending, other, id2, t);
    PendingOnItsBoard(last.store, id, t);
    PendingOnItsBoard(last.store, id2, t);
  }

  lemma IssuedFirst(s: State, id: ApprovalId)
    requires Inv(s) && id !in s.issued
    ensures id !in s.store.approvals
  {
  }

  // So can one with a resolved approval on one board and a pending one on another: restoring
  // the first succeeds.
  lemma {:induction false} RestoreTwoPending(s: State, t: TaskId, a: ApprovalId, b: ApprovalId)
    returns (acts: seq<Action>, last: State)
    requires Inv(s) && Quiet(s) && CanRestore(s, a) && About(s.store, a, t) && PendingAbout(s.store, b, t)
    ensures a != b && Run(s, acts, last) && PendingAbout(last.store, a, t) && PendingAbout(last.store, b, t)
  {
    hide Run, Enabled, Step, PendingFor, Effective, Restorer, Taken, TablesOk, Quiet;
    var n := |s.txns|;
    var before := RestoreReady(s, a);
    RestorerHolds(s, a);
    var restorer := Restorer(s, a, true);
    RestorerShape(s, a);
    hide Inv;
    var locked := LocksTaken(s, before, s, [restorer], 0, 1);
    assert [restorer][0 := Taken(restorer, 1)] == [Taken(restorer, 1)];
    RestoreWrites(s, a);
    OneMoreStep(s, locked, With(s, [Taken(restorer, 1)]), Commit(n));
    acts := locked + [Commit(n)];
    last := Step(With(s, [Taken(restorer, 1)]), Commit(n));
    WrittenPending(s.store, a, Pending, a, t);
    WrittenPending(s.store, a, Pending, b, t);
  }

  lemma RestorerShape(s: State, a: ApprovalId)
    requires a in s.store.approvals
    ensures HasLocks(Restorer(s, a, true)) && Restorer(s, a, true).locks.rest == [Row(a)]
  {
    hide Sorted, Effective;
  }

  lemma {:induction false} RestoreWrites(s: State, a: ApprovalId)
    requires a in s.store.approvals
    ensures HasLocks(Restorer(s, a, true)) && |Restorer(s, a, true).locks.rest| == 1
    ensures var done := Taken(Restorer(s, a, true), 1);
            && Enabled(With(s, [done]), Commit(|s.txns|))
            && Step(With(s, [done]), Commit(|s.txns|)).store == WithStatus(s.store, a, Pending)
  {
    hide Sorted, Effective, WithStatus;
  }

  // ---------- requests that stay on their board ----------

  // Every approval and every running create is about tasks of its own board.
  ghost predicate AtHome(s: State, home: TaskId -> BoardId) {
    && (forall a, t :: a in s.store.approvals && t in Effective(s.store, a) ==> home(t) == s.store.approvals[a].board)
    && (forall i, t :: 0 <= i < |s.txns| && s.txns[i].Creating? && t in s.txns[i].ids ==> home(t) == s.txns[i].board)
  }

  lemma {:induction false} StepAtHome(s: State, act: Action, home: TaskId -> BoardId)
    requires Inv(s) && Enabled(s, act) && AtHome(s, home)
    requires act.BeginCreate? ==> forall t :: t in act.ids ==> home(t) == act.board
    ensures AtHome(Step(s, act), home)
  {
    var s' := Step(s, act);
    forall i: nat, t | i < |s'.txns| && s'.txns[i].Creating? && t in s'.txns[i].ids
      ensures home(t) == s'.txns[i].board
    {
      CreatesKept(s, act, i);
    }
    hide Step, Inv, Effective;
    forall a, t | a in s'.store.approvals && t in Effective(s'.store, a)
      ensures home(t) == s'.store.approvals[a].board
    {
      if act.Commit? {
        CommitAtHome(s, act.i, a, t);
      } else {
        OnlyCommitsWrite(s, act);
      }
    }
  }

  // A running create was there before the step, or the step began it.
  lemma CreatesKept(s: State, act: Action, i: nat)
    requires Enabled(s, act) && i < |Step(s, act).txns| && Step(s, act).txns[i].Creating?
    ensures var txn := Step(s, act).txns[i];
            if i < |s.txns| then s.txns[i].Creating? && s.txns[i].board == txn.board && s.txns[i].ids == txn.ids
            else act.BeginCreate? && txn.board == act.board && txn.ids == act.ids
  {
    hide Conflict, Sorted, Committed, PlanFor, PlanLocks;
  }

  // What an approval is about after a commit it was about before, unless the commit created it.
  lemma {:induction false} CommitAtHome(s: State, i: nat, a: ApprovalId, t: TaskId)
    requires Inv(s) && Enabled(s, Commit(i))
    requires a in Step(s, Commit(i)).store.approvals && t in Effective(Step(s, Commit(i)).store, a)
    ensures var after, txn := Step(s, Commit(i)).store, s.txns[i];
            if a in s.store.approvals
            then t in Effective(s.store, a) && after.approvals[a].board == s.store.approvals[a].board
            else txn.Creating? && a == txn.id && t in txn.ids && after.approvals[a].board == txn.board
  {
    hide PendingFor, LocksOk, DeleteOk, UpdateOk, OnePending, PlanCommits, PlanApplied, Linked, Kept, RefsExist, NoClash;
    var txn := s.txns[i];
    assert TxnOk(s, txn);
    if txn.Creating? && SetOf(txn.ids) <= s.tasks {
      CreateEffect(s.store, txn.id, txn.board, txn.ids, txn.status);
    } else if txn.Deleting? && PlanCommits(s.store, s.tasks, txn.task, txn.plan.value) {
      DeleteIsAtomic(s, txn);
      DeleteEffect(s.store, txn.task, a);
      WithoutHas(Effective(s.store, a), txn.task, t);
    }
  }

  // When every request names only tasks of its own board, a task never has two pending
  // approvals, on whatever boards.
  lemma {:induction false} HomeRunsStayUnique(s: State, acts: seq<Action>, last: State, home: TaskId -> BoardId)
    requires Inv(s) && AtHome(s, home) && Run(s, acts, last)
    requires forall k, t :: 0 <= k < |acts| && acts[k].BeginCreate? && t in acts[k].ids ==> home(t) == acts[k].board
    ensures OnePendingOverall(last.store)
    decreases |acts|
  {
    hide Step, Enabled, PendingFor, Effective, OnePendingOverall, OnePending;
    if acts != [] {
      StepKeeps(s, acts[0]);
      StepAtHome(s, acts[0], home);
      HomeRunsStayUnique(Step(s, acts[0]), acts[1..], last, home);
    } else {
      HomeIsUnique(s, home);
    }
  }

  lemma {:induction false} HomeIsUnique(s: State, home: TaskId -> BoardId)
    requires OnePending(s.store) && AtHome(s, home)
    ensures OnePendingOverall(s.store)
  {
    hide Effective;
    forall a: ApprovalId, b: ApprovalId, t: TaskId | PendingAbout(s.store, a, t) && PendingAbout(s.store, b, t)
      ensures a == b
    {
      assert PendingFor(s.store, home(t), a, t) && PendingFor(s.store, home(t), b, t);
    }
  }
}
