/** What the commits of approval requests leave: what was asked for when they began. */
module ApprovalEffects {
  import opened Prelude
  import opened Dedup
  import opened ApprovalLinks
  import opened ApprovalProtocol

  // What a request asks for; an update also has the status that it found.
  datatype Ask =
    | AskCreate(id: ApprovalId, board: BoardId, ids: seq<TaskId>, status: ApprovalStatus)
    | AskUpdate(id: ApprovalId, board: BoardId, target: ApprovalStatus, found: ApprovalStatus)
    | AskDelete(t: TaskId)

  ghost function AskOf(s: State, act: Action): seq<Ask>
    requires Enabled(s, act)
  {
    match act
    case BeginCreate(id, board, ids, status) => [AskCreate(id, board, ids, status)]
    case BeginUpdate(id, board, target) => [AskUpdate(id, board, target, s.store.approvals[id].status)]
    case BeginDelete(t) => [AskDelete(t)]
    case _ => []
  }

  // The requests of a run in the order in which they begin: the n-th is transaction n.
  ghost function Asks(s: State, acts: seq<Action>): seq<Ask>
    decreases |acts|
  {
    if acts == [] || !Enabled(s, acts[0]) then [] else AskOf(s, acts[0]) + Asks(Step(s, acts[0]), acts[1..])
  }

  predicate WillHold(locks: Locks, l: Lock) {
    l in locks.held || l in locks.rest
  }

  // A transaction under way is one for what was asked, and holds or will take the lock of the
  // row that it writes.
  predicate Follows(ask: Ask, txn: Txn) {
    match txn
    case Ended => true
    case Creating(id, board, ids, status, _) => ask == AskCreate(id, board, ids, status)
    case Reopening(id, board, _) =>
      ask.AskUpdate? && ask.id == id && ask.board == board && ask.target == Pending && ask.found != Pending
    case Restoring(id, board, _, locks) =>
      && ask.AskUpdate? && ask.id == id && ask.board == board && ask.target == Pending && ask.found != Pending
      && (locks.checked ==> WillHold(locks, Row(id)))
    case Resolving(id, target, prior, locks) =>
      && ask.AskUpdate? && ask.id == id && ask.target == target && ask.found == prior
      && (target == Pending ==> prior == Pending) && (target != Pending ==> WillHold(locks, Row(id)))
    case Deleting(t, _, _, _) => ask == AskDelete(t)
  }

  ghost predicate AllFollow(asks: seq<Ask>, s: State) {
    && |asks| == |s.txns|
    && forall n :: 0 <= n < |asks| ==> Follows(asks[n], s.txns[n])
  }

  // ---------- steps ----------

  lemma {:induction false} LockedFollows(store: Store, tasks: set<TaskId>, ask: Ask, txn: Txn)
    requires HasLocks(txn) && txn.locks.rest != [] && Follows(ask, txn)
    ensures Follows(ask, Locked(store, tasks, txn))
  {
    var next, rest := txn.locks.rest[0], txn.locks.rest[1..];
    assert txn.locks.rest == [next] + rest;
    assert forall l :: WillHold(txn.locks, l) ==> l == next || l in txn.locks.held || l in rest;
  }

  lemma {:induction false} CheckedFollows(store: Store, ask: Ask, txn: Txn)
    requires (txn.Creating? || txn.Restoring?) && Follows(ask, txn)
    ensures Follows(ask, Checked(store, txn))
  {
    hide Conflict;
  }

  lemma {:induction false} OwnFollows(s: State, act: Action, ask: Ask)
    requires Enabled(s, act) && !act.AddTask? && !act.BeginCreate? && !act.BeginUpdate? && !act.BeginDelete?
    requires Follows(ask, s.txns[act.i])
    ensures |Step(s, act).txns| == |s.txns| && Step(s, act).txns == s.txns[act.i := Step(s, act).txns[act.i]]
    ensures Follows(ask, Step(s, act).txns[act.i])
  {
    hide Locked, Checked, Committed, Planned, LinksLoaded, Free;
    match act {
      case LoadLinks(i) => LoadedFollows(s.store, ask, s.txns[i]);
      case TakeLock(i) => LockedFollows(s.store, s.tasks, ask, s.txns[i]);
      case Check(i) => CheckedFollows(s.store, ask, s.txns[i]);
      case ReadRemaining(i) => PlannedFollows(s.store, ask, s.txns[i]);
      case Commit(i) =>
      case Abort(i) =>
    }
  }

  lemma LoadedFollows(store: Store, ask: Ask, txn: Txn)
    requires txn.Reopening? && Follows(ask, txn)
    ensures Follows(ask, LinksLoaded(store, txn))
  {
    hide Sorted, Linked;
  }

  lemma PlannedFollows(store: Store, ask: Ask, txn: Txn)
    requires txn.Deleting? && Follows(ask, txn)
    ensures Follows(ask, Planned(store, txn))
  {
    hide PlanFor, PlanLocks;
  }

  lemma {:induction false} BegunFollows(s: State, act: Action)
    requires Enabled(s, act) && (act.BeginCreate? || act.BeginUpdate? || act.BeginDelete?)
    ensures |AskOf(s, act)| == 1 && |Step(s, act).txns| == |s.txns| + 1 && Step(s, act).txns[..|s.txns|] == s.txns
    ensures Follows(AskOf(s, act)[0], Step(s, act).txns[|s.txns|])
  {
    hide Sorted, PrimaryOf, LinkLocks, TaskLocks;
  }

  lemma {:induction false} StepFollows(s: State, act: Action, asks: seq<Ask>)
    requires Enabled(s, act) && AllFollow(asks, s)
    ensures AllFollow(asks + AskOf(s, act), Step(s, act))
  {
    hide Enabled, Step, Follows;
    if act.BeginCreate? || act.BeginUpdate? || act.BeginDelete? {
      BegunFollows(s, act);
      var next := Step(s, act).txns;
      forall n | 0 <= n < |s.txns|
        ensures Follows((asks + AskOf(s, act))[n], next[n])
      {
        assert next[n] == next[..|s.txns|][n];
      }
    } else if act.AddTask? {
      AddTaskOnly(s, act);
      assert asks + AskOf(s, act) == asks;
    } else {
      ActsOnOne(s, act);
      OwnFollows(s, act, asks[act.i]);
      assert asks + AskOf(s, act) == asks;
    }
  }

  lemma AddTaskOnly(s: State, act: Action)
    requires Enabled(s, act) && act.AddTask?
    ensures Step(s, act).txns == s.txns && Step(s, act).store == s.store && Step(s, act).tasks == s.tasks + {act.t}
  {
  }

  lemma ActsOnOne(s: State, act: Action)
    requires Enabled(s, act) && !act.AddTask? && !act.BeginCreate? && !act.BeginUpdate? && !act.BeginDelete?
    ensures act.i < |s.txns|
  {
    hide Free;
  }

  lemma {:induction false} RunFollows(s: State, acts: seq<Action>, last: State, asks: seq<Ask>)
    requires AllFollow(asks, s) && Run(s, acts, last)
    ensures AllFollow(asks + Asks(s, acts), last)
    decreases |acts|
  {
    hide Step, Enabled, AllFollow, AskOf;
    if acts == [] {
      assert asks + Asks(s, acts) == asks;
    } else {
      StepFollows(s, acts[0], asks);
      RunFollows(Step(s, acts[0]), acts[1..], last, asks + AskOf(s, acts[0]));
      assert (asks + AskOf(s, acts[0])) + Asks(Step(s, acts[0]), acts[1..]) == asks + Asks(s, acts);
    }
  }

  // ---------- what a commit leaves ----------

  // An update gives its approval the target status, and changes nothing else: not its board,
  // column or links, and no other approval. One that asks for the status it found writes
  // nothing. A create adds the approval with its board and status, with the first of its
  // tasks in the column and all of them as links, if the tasks are there. A deletion takes
  // the task and leaves the approvals without it, or is rolled back.
  ghost predicate Effect(ask: Ask, before: State, after: State) {
    match ask
    case AskUpdate(id, _, target, found) =>
      && after.tasks == before.tasks && after.store.links == before.store.links
      && if target == found then after.store.approvals == before.store.approvals
         else && id in before.store.approvals
              && after.store.approvals == before.store.approvals[id := before.store.approvals[id].(status := target)]
    case AskCreate(id, board, ids, status) =>
      && after.tasks == before.tasks
      && if !(SetOf(ids) <= before.tasks) then after.store == before.store
         else && id !in before.store.approvals
              && after.store.approvals ==
                   before.store.approvals[id := Approval(board, if ids == [] then None else Some(ids[0]), status)]
              && Linked(after.store.links, id) == ids
              && forall b: ApprovalId :: b != id ==> Linked(after.store.links, b) == Linked(before.store.links, b)
    case AskDelete(t) =>
      || (after.tasks == before.tasks - {t} && after.store == WithoutTask(before.store, t))
      || (after.tasks == before.tasks && after.store == before.store)
  }

  lemma {:induction false} RowThere(s: State, n: nat, ask: Ask)
    requires Inv(s) && Enabled(s, Commit(n)) && Follows(ask, s.txns[n])
    requires s.txns[n].Restoring? || (s.txns[n].Resolving? && s.txns[n].target != s.txns[n].prior)
    ensures s.txns[n].id in s.store.approvals
  {
    hide TablesOk, OnePending, NoClash, TxnOk;
    var id := s.txns[n].id;
    assert Row(id) in Held(s.txns[n]);
    assert Present(s.store, s.tasks, Row(id));
  }

  lemma {:induction false} CommitEffect(s: State, n: nat, ask: Ask)
    requires Inv(s) && Enabled(s, Commit(n)) && Follows(ask, s.txns[n])
    ensures Effect(ask, s, Step(s, Commit(n)))
  {
    hide Aligned, RefsExist, Linked, ReplacedLinks, OnePending, PlanCommits, PlanApplied, WithoutTask, NoClash,
         LocksOk, DeleteOk, UpdateOk;
    var txn := s.txns[n];
    assert TxnOk(s, txn);
    match txn {
      case Creating(id, board, ids, status, _) =>
        CreateEffect(s.store, id, board, ids, status);
        CreatedRows(s.store, id, board, ids, status);
      case Restoring(_, _, _, _) => RowThere(s, n, ask);
      case Resolving(_, target, prior, _) => if target != prior { RowThere(s, n, ask); }
      case Deleting(t, _, plan, _) =>
        if plan.Some? && PlanCommits(s.store, s.tasks, t, plan.value) { DeleteIsAtomic(s, txn); }
      case _ =>
    }
  }

  lemma CreatedRows(s: Store, a: ApprovalId, board: BoardId, ts: seq<TaskId>, status: ApprovalStatus)
    requires a !in s.approvals
    ensures WithApproval(s, a, board, ts, status).approvals
            == s.approvals[a := Approval(board, if ts == [] then None else Some(ts[0]), status)]
  {
    hide ReplacedLinks;
  }

  // ---------- runs ----------

  lemma {:induction false} RunAsks(s: State, acts: seq<Action>, last: State)
    requires Initial(s) && Run(s, acts, last)
    ensures Inv(last) && AllFollow(Asks(s, acts), last)
  {
    hide Inv, Run, Asks, Follows;
    InitialIsSafe(s);
    EveryRunIsSafe(s, acts, last);
    RunFollows(s, acts, last, []);
    assert [] + Asks(s, acts) == Asks(s, acts);
  }

  // Over every interleaving: a commit leaves exactly what the request asked for when it began.
  lemma {:induction false} CommitsDoWhatWasAsked(s: State, acts: seq<Action>, last: State, n: nat)
    requires Initial(s) && Run(s, acts, last) && Enabled(last, Commit(n))
    ensures n < |Asks(s, acts)| && Effect(Asks(s, acts)[n], last, Step(last, Commit(n)))
  {
    hide Inv, Run, Asks, Follows, Effect, Step;
    RunAsks(s, acts, last);
    CommitEffect(last, n, Asks(s, acts)[n]);
  }

  // Only commits write the tables, and a new task is the only other thing they get.
  lemma OnlyCommitsWrite(s: State, act: Action)
    requires Enabled(s, act) && !act.Commit?
    ensures Step(s, act).store == s.store
    ensures Step(s, act).tasks == s.tasks + if act.AddTask? then {act.t} else {}
  {
    hide Committed, Locked, Checked, Planned, LinksLoaded, Free, BegunCreate, BegunUpdate;
  }

  // Over every interleaving: the status of an approval changes by nothing but the commit of
  // an update that asked for the new status of that approval.
  lemma {:induction false} StatusChangesAsAsked(s: State, acts: seq<Action>, last: State, act: Action, a: ApprovalId)
    requires Initial(s) && Run(s, acts, last) && Enabled(last, act)
    requires a in last.store.approvals && a in Step(last, act).store.approvals
    requires last.store.approvals[a].status != Step(last, act).store.approvals[a].status
    ensures act.Commit? && act.i < |Asks(s, acts)|
    ensures var ask := Asks(s, acts)[act.i];
            ask.AskUpdate? && ask.id == a && ask.target == Step(last, act).store.approvals[a].status && ask.found != ask.target
  {
    hide Run, Asks, Follows, Step, Enabled, WithoutTask, Inv, TablesOk, RefsExist;
    if act.Commit? {
      RunAsks(s, acts, last);
      InvAligned(last);
      CommitsDoWhatWasAsked(s, acts, last, act.i);
      DeleteEffect(last.store, if Asks(s, acts)[act.i].AskDelete? then Asks(s, acts)[act.i].t else 0, a);
    } else {
      OnlyCommitsWrite(last, act);
    }
  }

  lemma InvAligned(s: State)
    requires Inv(s)
    ensures Aligned(s.store)
  {
  }

  // An approval appears by nothing but the commit of a create that asked for it.
  lemma {:induction false} ApprovalsAppearAsAsked(s: State, acts: seq<Action>, last: State, act: Action, a: ApprovalId)
    requires Initial(s) && Run(s, acts, last) && Enabled(last, act)
    requires a !in last.store.approvals && a in Step(last, act).store.approvals
    ensures act.Commit? && act.i < |Asks(s, acts)| && Asks(s, acts)[act.i].AskCreate? && Asks(s, acts)[act.i].id == a
  {
    hide Run, Asks, Follows, Step, Enabled, Inv, RefsExist;
    if act.Commit? {
      CommitsDoWhatWasAsked(s, acts, last, act.i);
    } else {
      OnlyCommitsWrite(last, act);
    }
  }

  // ---------- refusals ----------

  // Another approval of the board is pending about one of these tasks.
  ghost predicate PendingElsewhere(s: Store, board: BoardId, ids: seq<TaskId>, self: ApprovalId) {
    exists a: ApprovalId, t: TaskId ::
      t in ids && a != self && About(s, a, t) && s.approvals[a].board == board && s.approvals[a].status == Pending
  }

  // The conflict check ends a request exactly when there is one.
  lemma CheckOutcome(s: State, i: nat)
    requires Enabled(s, Check(i))
    ensures Step(s, Check(i)).txns[i].Ended? <==> PendingElsewhere(s.store, s.txns[i].board, s.txns[i].ids, s.txns[i].id)
  {
    hide About;
    ConflictMeaning(s.store, s.txns[i].board, s.txns[i].ids, s.txns[i].id);
    hide Conflict, PendingElsewhere;
  }

  lemma ConflictMeaning(s: Store, board: BoardId, ids: seq<TaskId>, self: ApprovalId)
    ensures Conflict(s, board, ids, self) <==> PendingElsewhere(s, board, ids, self)
  {
    hide Linked, Effective;
    if PendingElsewhere(s, board, ids, self) {
      var a: ApprovalId, t: TaskId :|
        t in ids && a != self && About(s, a, t) && s.approvals[a].board == board && s.approvals[a].status == Pending;
      assert PendingFor(s, board, a, t);
    }
  }

  // With no other request under way, an approval is resolved in three steps.
  lemma {:induction false} LoneResolve(s: State, id: ApprovalId, target: ApprovalStatus) returns (acts: seq<Action>, last: State)
    requires (forall n :: 0 <= n < |s.txns| ==> s.txns[n].Ended?) && id in s.store.approvals
    requires target != Pending && target != s.store.approvals[id].status
    ensures acts == [BeginUpdate(id, s.store.approvals[id].board, target), TakeLock(|s.txns|), Commit(|s.txns|)]
    ensures Run(s, acts, last) && last.tasks == s.tasks
    ensures last.store == s.store.(approvals := s.store.approvals[id := s.store.approvals[id].(status := target)])
  {
    var n := |s.txns|;
    var begin := BeginUpdate(id, s.store.approvals[id].board, target);
    acts := [begin, TakeLock(n), Commit(n)];
    var one := Step(s, begin);
    assert forall j :: 0 <= j < n ==> Held(one.txns[j]) == {};
    var two := Step(one, TakeLock(n));
    last := Step(two, Commit(n));
    hide Step, Enabled;
    assert acts[1..] == [TakeLock(n), Commit(n)] && acts[1..][1..] == [Commit(n)] && [Commit(n)][1..] == [];
    assert Run(two, [Commit(n)], last);
    assert Run(one, acts[1..], last);
  }
}
