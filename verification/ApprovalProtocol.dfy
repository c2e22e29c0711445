/**
 Approval requests as concurrent transactions. A transaction reads, takes its row locks one
 at a time, checks for pending conflicts, and commits; between any two of its steps every
 other transaction may take its own. Locks are held until the transaction ends.
 */
module ApprovalProtocol {
  import opened Prelude
  import opened Dedup
  import opened ApprovalLinks

  // Rows are locked by the query that prepares a pending approval or by deletion (a task,
  // exclusively), by the foreign keys of rows that are written (a task, shared), by writing
  // an approval, and by deleting the links of a task.
  datatype Lock = Exclusive(t: TaskId) | Shared(t: TaskId) | Row(a: ApprovalId) | LinkRows(t: TaskId)

  predicate Clash(l: Lock, m: Lock) {
    match l
    case Exclusive(t) => m == Exclusive(t) || m == Shared(t)
    case Shared(t) => m == Exclusive(t)
    case Row(_) => m == l
    case LinkRows(_) => m == l
  }

  // What a transaction holds, what it still has to lock, in that order, and whether the
  // conflict check is behind it or not needed.
  datatype Locks = Locks(checked: bool, held: set<Lock>, rest: seq<Lock>)

  // What a deletion has read: the links it deletes, and for each approval whose column
  // named the task the next value of the column, or none when the approval goes as well.
  datatype Plan = Plan(seen: set<Link>, moves: map<ApprovalId, Option<TaskId>>)

  datatype Txn =
    | Creating(id: ApprovalId, board: BoardId, ids: seq<TaskId>, status: ApprovalStatus, locks: Locks)
    | Reopening(id: ApprovalId, board: BoardId, column: Option<TaskId>)
    | Restoring(id: ApprovalId, board: BoardId, ids: seq<TaskId>, locks: Locks)
    | Resolving(id: ApprovalId, target: ApprovalStatus, prior: ApprovalStatus, locks: Locks)
    | Deleting(task: TaskId, primary: set<ApprovalId>, plan: Option<Plan>, locks: Locks)
    | Ended

  // `named` holds every task id ever created or named by a request and `issued` every
  // approval id ever drawn: new ids are random and never repeat one of these.
  datatype State = State(store: Store, tasks: set<TaskId>, txns: seq<Txn>,
                         named: set<TaskId>, issued: set<ApprovalId>)

  datatype Action =
    | AddTask(t: TaskId)
    | BeginCreate(id: ApprovalId, board: BoardId, ids: seq<TaskId>, status: ApprovalStatus)
    | BeginUpdate(id: ApprovalId, board: BoardId, target: ApprovalStatus)
    | BeginDelete(t: TaskId)
    | LoadLinks(i: nat)
    | TakeLock(i: nat)
    | Check(i: nat)
    | ReadRemaining(i: nat)
    | Commit(i: nat)
    | Abort(i: nat)

  // ---------- lock order ----------

  ghost predicate Ascending(ts: seq<TaskId>) {
    forall j, k :: 0 <= j < k < |ts| ==> ts[j] < ts[k]
  }

  ghost function MinOf(ts: set<TaskId>): (m: TaskId)
    requires ts != {}
    ensures m in ts && forall t :: t in ts ==> m <= t
  {
    var x :| x in ts;
    var rest := ts - {x};
    if rest == {} then
      assert ts == {x};
      x
    else
      var m := MinOf(rest);
      assert forall t :: t in ts ==> t == x || t in rest;
      if x < m then x else m
  }

  // The rows of a lock query come sorted by task id.
  ghost function Sorted(ts: set<TaskId>): (r: seq<TaskId>)
    ensures |r| == |ts|
  {
    if ts == {} then [] else [MinOf(ts)] + Sorted(ts - {MinOf(ts)})
  }

  lemma AscendingCons(m: TaskId, rest: seq<TaskId>)
    requires Ascending(rest) && forall k :: 0 <= k < |rest| ==> m < rest[k]
    ensures Ascending([m] + rest)
  {
  }

  lemma {:induction false} SortedMeaning(ts: set<TaskId>)
    ensures forall t :: t in Sorted(ts) <==> t in ts
    ensures Ascending(Sorted(ts))
  {
    if ts != {} {
      var m, rest := MinOf(ts), Sorted(ts - {MinOf(ts)});
      assert Sorted(ts) == [m] + rest;
      hide Sorted;
      SortedMeaning(ts - {m});
      forall k | 0 <= k < |rest|
        ensures m < rest[k]
      {
        assert rest[k] in rest;
      }
      AscendingCons(m, rest);
      forall t: TaskId
        ensures t in [m] + rest <==> t in ts
      {
        assert t in [m] + rest <==> t == m || t in rest;
      }
    }
  }

  // ---------- what is locked ----------

  // The exclusive locks for the tasks of a pending approval, in the order of their ids.
  function TaskLocks(ts: seq<TaskId>): seq<Lock> {
    seq(|ts|, k requires 0 <= k < |ts| => Exclusive(ts[k]))
  }

  // The foreign keys of a new approval and its links, in the order of the list.
  function LinkLocks(ts: seq<TaskId>): seq<Lock> {
    seq(|ts|, k requires 0 <= k < |ts| => Shared(ts[k]))
  }

  // Writing approvals whose column moves on: each row, and the task its column then names.
  function MoveLocks(order: seq<ApprovalId>, moves: map<ApprovalId, Option<TaskId>>): seq<Lock> {
    if order == [] then []
    else
      [Row(order[0])]
      + (if order[0] in moves && moves[order[0]].Some? then [Shared(moves[order[0]].value)] else [])
      + MoveLocks(order[1..], moves)
  }

  function MovedOnes(plan: Plan, moved: bool): set<ApprovalId> {
    set a | a in plan.moves && plan.moves[a].Some? == moved
  }

  // A deletion writes the approvals that move on, then deletes those that do not, then the task.
  ghost function PlanLocks(plan: Plan, t: TaskId): seq<Lock> {
    MoveLocks(Sorted(MovedOnes(plan, true)), plan.moves) + MoveLocks(Sorted(MovedOnes(plan, false)), plan.moves)
    + [Exclusive(t)]
  }

  predicate HasLocks(txn: Txn) {
    !txn.Ended? && !txn.Reopening?
  }

  function Held(txn: Txn): set<Lock> {
    if HasLocks(txn) then txn.locks.held else {}
  }

  // A row that is not there cannot be locked.
  predicate Present(store: Store, tasks: set<TaskId>, l: Lock) {
    match l
    case Exclusive(t) => t in tasks
    case Shared(t) => t in tasks
    case Row(a) => a in store.approvals
    case LinkRows(_) => true
  }

  // The approvals a transaction has in hand.
  function Names(txn: Txn): set<ApprovalId> {
    match txn
    case Creating(id, _, _, _, _) => {id}
    case Reopening(id, _, _) => {id}
    case Restoring(id, _, _, _) => {id}
    case Resolving(_, _, _, _) => {}
    case Deleting(_, primary, _, _) => primary
    case Ended => {}
  }

  // No other transaction holds a lock that clashes.
  ghost predicate Free(txns: seq<Txn>, i: nat, l: Lock) {
    forall j, m :: 0 <= j < |txns| && j != i && m in Held(txns[j]) ==> !Clash(l, m)
  }

  // ---------- steps ----------

  ghost predicate Conflict(store: Store, board: BoardId, ids: seq<TaskId>, self: ApprovalId) {
    exists a: ApprovalId, t: TaskId :: t in ids && a != self && PendingFor(store, board, a, t)
  }

  function PrimaryOf(store: Store, t: TaskId): set<ApprovalId> {
    set a | a in store.approvals && store.approvals[a].task == Some(t)
  }

  function PlanFor(store: Store, t: TaskId, primary: set<ApprovalId>): Plan {
    Plan(set l | l in store.links && l.task == t,
         map a | a in primary ::
           var remaining := Linked(RemainingLinks(store, t), a);
           if remaining == [] then None else Some(remaining[0]))
  }

  function PlanApplied(store: Store, plan: Plan): Store {
    Store(map a | a in store.approvals && !(a in plan.moves && plan.moves[a].None?)
            :: if a in plan.moves then store.approvals[a].(task := plan.moves[a]) else store.approvals[a],
          Kept(store.links, (l: Link) => l !in plan.seen))
  }

  // The foreign keys hold, and every row to be updated is still there.
  ghost predicate PlanCommits(store: Store, tasks: set<TaskId>, t: TaskId, plan: Plan) {
    && (forall a :: a in plan.moves && plan.moves[a].Some? ==> a in store.approvals)
    && RefsExist(PlanApplied(store, plan), tasks - {t})
  }

  ghost predicate Enabled(s: State, act: Action) {
    match act
    case AddTask(t) => t !in s.named
    case BeginCreate(id, _, _, _) => id !in s.issued
    case BeginUpdate(id, board, _) => id in s.store.approvals && s.store.approvals[id].board == board
    case BeginDelete(t) => t in s.tasks
    case LoadLinks(i) => i < |s.txns| && s.txns[i].Reopening?
    case TakeLock(i) =>
      i < |s.txns| && HasLocks(s.txns[i]) && s.txns[i].locks.rest != [] && Free(s.txns, i, s.txns[i].locks.rest[0])
    case Check(i) =>
      && i < |s.txns| && (s.txns[i].Creating? || s.txns[i].Restoring?)
      && !s.txns[i].locks.checked && s.txns[i].locks.rest == []
    // Links that another deletion is deleting have to be waited for.
    case ReadRemaining(i) =>
      && i < |s.txns| && s.txns[i].Deleting? && s.txns[i].plan.None?
      && Free(s.txns, i, LinkRows(s.txns[i].task))
    case Commit(i) => i < |s.txns| && HasLocks(s.txns[i]) && s.txns[i].locks.checked && s.txns[i].locks.rest == []
    case Abort(i) => i < |s.txns| && !s.txns[i].Ended?
  }

  // What a commit leaves in the tables; a failed foreign key or a vanished row rolls it back.
  ghost function Committed(s: State, txn: Txn): (Store, set<TaskId>) {
    match txn
    case Creating(id, board, ids, status, _) =>
      if SetOf(ids) <= s.tasks then (WithApproval(s.store, id, board, ids, status), s.tasks) else (s.store, s.tasks)
    case Restoring(id, _, _, _) => (WithStatus(s.store, id, Pending), s.tasks)
    case Resolving(id, target, prior, _) =>
      (if target == prior then s.store else WithStatus(s.store, id, target), s.tasks)
    case Deleting(t, _, plan, _) =>
      if plan.Some? && PlanCommits(s.store, s.tasks, t, plan.value)
      then (PlanApplied(s.store, plan.value), s.tasks - {t}) else (s.store, s.tasks)
    case Reopening(_, _, _) => (s.store, s.tasks)
    case Ended => (s.store, s.tasks)
  }

  function WithStatus(store: Store, a: ApprovalId, status: ApprovalStatus): Store {
    if a in store.approvals then store.(approvals := store.approvals[a := store.approvals[a].(status := status)]) else store
  }

  // A pending approval is checked under exclusive locks; any other takes the shared locks of
  // its foreign keys as its rows are written.
  ghost function BegunCreate(id: ApprovalId, board: BoardId, ids: seq<TaskId>, status: ApprovalStatus): Txn {
    Creating(id, board, ids, status,
             if status == Pending then Locks(false, {}, TaskLocks(Sorted(SetOf(ids)))) else Locks(true, {}, LinkLocks(ids)))
  }

  // Only a change from resolved to pending needs the links and the task locks; a change from
  // pending to pending writes nothing at all.
  function BegunUpdate(store: Store, id: ApprovalId, board: BoardId, target: ApprovalStatus): Txn
    requires id in store.approvals
  {
    var approval := store.approvals[id];
    if target == Pending && approval.status != Pending then Reopening(id, board, approval.task)
    else Resolving(id, target, approval.status, Locks(true, {}, if target == Pending then [] else [Row(id)]))
  }

  ghost function LinksLoaded(store: Store, txn: Txn): Txn
    requires txn.Reopening?
  {
    var linked := Linked(store.links, txn.id);
    var ids := if linked != [] then linked else if txn.column.Some? then [txn.column.value] else [];
    Restoring(txn.id, txn.board, ids, Locks(false, {}, TaskLocks(Sorted(SetOf(ids)))))
  }

  // A missing task is passed over by the lock query, and a missing approval by its deletion;
  // a missing row that a write or a foreign key needs ends the transaction.
  function Locked(store: Store, tasks: set<TaskId>, txn: Txn): Txn
    requires HasLocks(txn) && txn.locks.rest != []
  {
    var next, locks := txn.locks.rest[0], txn.locks.(rest := txn.locks.rest[1..]);
    if Present(store, tasks, next) then txn.(locks := locks.(held := locks.held + {next}))
    else if next.Exclusive? || (next.Row? && GoesAnyway(txn, next.a)) then txn.(locks := locks)
    else Ended
  }

  predicate GoesAnyway(txn: Txn, a: ApprovalId) {
    txn.Deleting? && txn.plan.Some? && a in txn.plan.value.moves && txn.plan.value.moves[a].None?
  }

  // A passed check is followed by the write: of a new row, or of one that may be locked.
  ghost function Checked(store: Store, txn: Txn): Txn
    requires txn.Creating? || txn.Restoring?
  {
    if Conflict(store, txn.board, txn.ids, txn.id) then Ended
    else match txn
      case Creating(id, board, ids, status, locks) => Creating(id, board, ids, status, Locks(true, locks.held, []))
      case Restoring(id, board, ids, locks) => Restoring(id, board, ids, Locks(true, locks.held, [Row(id)]))
      case _ => Ended
  }

  ghost function Planned(store: Store, txn: Txn): Txn
    requires txn.Deleting?
  {
    var plan := PlanFor(store, txn.task, txn.primary);
    txn.(plan := Some(plan),
         locks := Locks(true, if plan.seen == {} then {} else {LinkRows(txn.task)}, PlanLocks(plan, txn.task)))
  }

  ghost function Step(s: State, act: Action): State
    requires Enabled(s, act)
  {
    match act
    case AddTask(t) => s.(tasks := s.tasks + {t}, named := s.named + {t})
    case BeginCreate(id, board, ids, status) =>
      s.(txns := s.txns + [BegunCreate(id, board, ids, status)], named := s.named + SetOf(ids), issued := s.issued + {id})
    case BeginUpdate(id, board, target) => s.(txns := s.txns + [BegunUpdate(s.store, id, board, target)])
    case BeginDelete(t) => s.(txns := s.txns + [Deleting(t, PrimaryOf(s.store, t), None, Locks(false, {}, []))])
    case LoadLinks(i) => s.(txns := s.txns[i := LinksLoaded(s.store, s.txns[i])])
    case TakeLock(i) => s.(txns := s.txns[i := Locked(s.store, s.tasks, s.txns[i])])
    case Check(i) => s.(txns := s.txns[i := Checked(s.store, s.txns[i])])
    case ReadRemaining(i) => s.(txns := s.txns[i := Planned(s.store, s.txns[i])])
    case Commit(i) =>
      var (store, tasks) := Committed(s, s.txns[i]);
      s.(store := store, tasks := tasks, txns := s.txns[i := Ended])
    case Abort(i) => s.(txns := s.txns[i := Ended])
  }

  // ---------- the invariant ----------

  ghost predicate OnePending(store: Store) {
    forall board: BoardId, a: ApprovalId, b: ApprovalId, t: TaskId ::
      PendingFor(store, board, a, t) && PendingFor(store, board, b, t) ==> a == b
  }

  predicate WritesPending(txn: Txn) {
    txn.Restoring? || (txn.Creating? && txn.status == Pending)
  }

  ghost predicate LocksOk(store: Store, tasks: set<TaskId>, txn: Txn)
    requires txn.Creating? || txn.Restoring?
  {
    WritesPending(txn) ==>
      forall t :: t in txn.ids && t in tasks ==>
        if txn.locks.checked
        then Exclusive(t) in txn.locks.held && forall a: ApprovalId :: a != txn.id ==> !PendingFor(store, txn.board, a, t)
        else Exclusive(t) in txn.locks.held || Exclusive(t) in txn.locks.rest
  }

  // While the task exists the approvals read still name it. Once another deletion of the
  // same task has won, they have moved on to their first link.
  ghost predicate DeleteOk(store: Store, tasks: set<TaskId>, named: set<TaskId>, txn: Txn)
    requires txn.Deleting?
  {
    && txn.task in named
    && (forall a :: a in txn.primary && a in store.approvals ==>
          if txn.task in tasks then store.approvals[a].task == Some(txn.task) else Settled(store, a))
    && (txn.plan.Some? ==>
          && (forall l :: l in txn.plan.value.seen ==> l.task == txn.task)
          && txn.plan.value.moves.Keys == txn.primary
          && (txn.task in tasks ==> Exclusive(txn.task) in txn.locks.held || Exclusive(txn.task) in txn.locks.rest)
          && (forall a :: a in txn.primary && a in store.approvals ==> Row(a) in txn.locks.held || Row(a) in txn.locks.rest)
          && forall a :: a in txn.primary && a in store.approvals && txn.plan.value.moves[a].Some? ==>
               StillFirst(store, tasks, named, txn.task, a, txn.plan.value.moves[a].value))
  }

  ghost predicate Settled(store: Store, a: ApprovalId)
    requires a in store.approvals
  {
    var linked := Linked(store.links, a);
    linked != [] && store.approvals[a].task == Some(linked[0])
  }

  // The next column value is the first other link, unless its task has gone meanwhile.
  ghost predicate StillFirst(store: Store, tasks: set<TaskId>, named: set<TaskId>, t: TaskId, a: ApprovalId,
                             next: TaskId) {
    var others := Without(Linked(store.links, a), t);
    next in named && (next !in tasks || (others != [] && others[0] == next))
  }

  ghost predicate UpdateOk(store: Store, txn: Txn)
    requires txn.Reopening? || txn.Restoring?
  {
    txn.id in store.approvals ==>
      && store.approvals[txn.id].board == txn.board
      && match txn {
           case Reopening(id, _, column) =>
             store.approvals[id].task == column || (store.approvals[id].task.Some? && Linked(store.links, id) != [])
           case Restoring(id, _, ids, _) => forall t :: t in Effective(store, id) ==> t in ids
           case _ => true
         }
  }

  ghost predicate TxnOk(s: State, txn: Txn) {
    && Names(txn) <= s.issued
    && match txn {
         case Creating(id, _, ids, _, _) =>
           id !in s.store.approvals && SetOf(ids) <= s.named && LocksOk(s.store, s.tasks, txn)
         case Reopening(id, _, column) => UpdateOk(s.store, txn) && (column.Some? ==> column.value in s.named)
         case Restoring(id, _, ids, _) =>
           SetOf(ids) <= s.named && UpdateOk(s.store, txn) && LocksOk(s.store, s.tasks, txn)
         case Resolving(_, target, prior, locks) => locks.checked && (target == Pending ==> prior == Pending)
         case Deleting(_, _, plan, locks) =>
           && (if plan.None? then locks == Locks(false, {}, []) else locks.checked)
           && DeleteOk(s.store, s.tasks, s.named, txn)
         case Ended => true
       }
  }

  ghost predicate TablesOk(s: State) {
    && Aligned(s.store) && RefsExist(s.store, s.tasks)
    && s.tasks <= s.named && s.store.approvals.Keys <= s.issued
  }

  ghost predicate NoClash(txns: seq<Txn>) {
    forall i, j, l, m :: 0 <= i < |txns| && 0 <= j < |txns| && i != j && l in Held(txns[i]) && m in Held(txns[j]) ==>
      !Clash(l, m)
  }

  // Locks do not clash and are on rows that are there; a new approval is in no other's hands.
  ghost predicate Apart(s: State) {
    && NoClash(s.txns)
    && (forall i, l :: 0 <= i < |s.txns| && l in Held(s.txns[i]) ==> Present(s.store, s.tasks, l))
    && (forall i, j :: 0 <= i < |s.txns| && 0 <= j < |s.txns| && i != j && s.txns[i].Creating? ==>
          s.txns[i].id !in Names(s.txns[j]))
  }

  ghost predicate Inv(s: State) {
    && TablesOk(s) && OnePending(s.store) && Apart(s)
    && (forall i :: 0 <= i < |s.txns| ==> TxnOk(s, s.txns[i]))
  }

  ghost predicate Initial(s: State) {
    && s.txns == [] && TablesOk(s) && OnePending(s.store)
  }

  // ---------- one transaction's own steps ----------

  lemma {:induction false} LocksStartOk(store: Store, tasks: set<TaskId>, txn: Txn)
    requires txn.Creating? || txn.Restoring?
    requires txn.locks == Locks(false, {}, TaskLocks(Sorted(SetOf(txn.ids))))
    ensures LocksOk(store, tasks, txn)
  {
    hide PendingFor, Sorted;
    SortedMeaning(SetOf(txn.ids));
    forall t | t in txn.ids
      ensures Exclusive(t) in txn.locks.rest
    {
      assert t in SetOf(txn.ids);
      TaskLocksHave(Sorted(SetOf(txn.ids)), t);
    }
  }

  lemma TaskLocksHave(ts: seq<TaskId>, t: TaskId)
    requires t in ts
    ensures Exclusive(t) in TaskLocks(ts)
  {
    var k :| 0 <= k < |ts| && ts[k] == t;
    assert TaskLocks(ts)[k] == Exclusive(t);
  }

  lemma {:induction false} LinksLoadedOk(s: State, txn: Txn)
    requires TablesOk(s) && txn.Reopening? && TxnOk(s, txn)
    ensures TxnOk(s, LinksLoaded(s.store, txn)) && Held(LinksLoaded(s.store, txn)) == {}
  {
    hide Linked, PendingFor, Sorted, LocksOk;
    var after := LinksLoaded(s.store, txn);
    LocksStartOk(s.store, s.tasks, after);
    forall t | t in SetOf(after.ids)
      ensures t in s.named
    {
      if Linked(s.store.links, txn.id) != [] {
        LinkedHas(s.store.links, txn.id, t);
        assert Link(txn.id, t).task in s.tasks;
      }
    }
  }

  lemma {:induction false} LockedOk(s: State, txn: Txn)
    requires HasLocks(txn) && txn.locks.rest != [] && TxnOk(s, txn)
    ensures TxnOk(s, Locked(s.store, s.tasks, txn))
    ensures Names(Locked(s.store, s.tasks, txn)) <= Names(txn)
    ensures forall l :: l in Held(Locked(s.store, s.tasks, txn)) ==>
              l in Held(txn) || (l == txn.locks.rest[0] && Present(s.store, s.tasks, l))
  {
    hide Linked, PendingFor, Effective, StillFirst, Settled;
    var rest := txn.locks.rest;
    assert forall l :: l in rest <==> l == rest[0] || l in rest[1..];
  }

  lemma {:induction false} CheckedOk(s: State, txn: Txn)
    requires (txn.Creating? || txn.Restoring?) && !txn.locks.checked && txn.locks.rest == [] && TxnOk(s, txn)
    ensures TxnOk(s, Checked(s.store, txn))
  {
    hide Linked, PendingFor, Effective;
  }

  lemma {:induction false} MoveLocksHave(order: seq<ApprovalId>, moves: map<ApprovalId, Option<TaskId>>, a: ApprovalId)
    requires a in order
    ensures Row(a) in MoveLocks(order, moves)
  {
    if a != order[0] {
      assert order == [order[0]] + order[1..];
      MoveLocksHave(order[1..], moves, a);
    }
  }

  lemma {:induction false} PlanLocksHave(plan: Plan, t: TaskId)
    ensures Exclusive(t) in PlanLocks(plan, t)
    ensures forall a :: a in plan.moves ==> Row(a) in PlanLocks(plan, t)
  {
    hide Sorted, MoveLocks;
    var moved, gone := MovedOnes(plan, true), MovedOnes(plan, false);
    var rows, more := MoveLocks(Sorted(moved), plan.moves), MoveLocks(Sorted(gone), plan.moves);
    assert PlanLocks(plan, t) == rows + more + [Exclusive(t)];
    assert (rows + more + [Exclusive(t)])[|rows + more|] == Exclusive(t);
    SortedMeaning(moved);
    SortedMeaning(gone);
    forall a | a in plan.moves
      ensures Row(a) in rows || Row(a) in more
    {
      if a in moved {
        MoveLocksHave(Sorted(moved), plan.moves, a);
      } else {
        MoveLocksHave(Sorted(gone), plan.moves, a);
      }
    }
  }

  lemma {:induction false} PlannedOk(s: State, txn: Txn)
    requires TablesOk(s) && txn.Deleting? && txn.plan.None? && TxnOk(s, txn)
    ensures TxnOk(s, Planned(s.store, txn))
  {
    hide Linked, Kept, Without, PlanLocks;
    var plan := PlanFor(s.store, txn.task, txn.primary);
    PlanLocksHave(plan, txn.task);
    forall a | a in txn.primary && plan.moves[a].Some?
      ensures StillFirst(s.store, s.tasks, s.named, txn.task, a, plan.moves[a].value)
    {
      LinkedRemaining(s.store.links, txn.task, a);
      var next := plan.moves[a].value;
      LinkedHas(RemainingLinks(s.store, txn.task), a, next);
      KeptHas(s.store.links, (l: Link) => l.task != txn.task, Link(a, next));
    }
  }

  // ---------- what a commit does to the tables ----------

  lemma {:induction false} KeptSame(links: seq<Link>, p: Link -> bool, q: Link -> bool)
    requires forall l :: l in links ==> p(l) == q(l)
    ensures Kept(links, p) == Kept(links, q)
  {
    if links != [] {
      assert links[0] in links;
      KeptSame(links[1..], p, q);
    }
  }

  // A deletion works from what it read earlier, yet when it commits its effect is that of
  // deleting the task at that very moment.
  lemma {:induction false} DeleteIsAtomic(s: State, txn: Txn)
    requires TablesOk(s) && txn.Deleting? && txn.plan.Some? && TxnOk(s, txn)
    requires PlanCommits(s.store, s.tasks, txn.task, txn.plan.value)
    ensures PlanApplied(s.store, txn.plan.value) == WithoutTask(s.store, txn.task)
  {
    var t, plan := txn.task, txn.plan.value;
    var after := PlanApplied(s.store, plan);
    SeenAll(s, txn);
    var links := RemainingLinks(s.store, t);
    forall a | a in s.store.approvals
      ensures a in after.approvals <==> a in WithoutTask(s.store, t).approvals
      ensures a in after.approvals ==> after.approvals[a] == WithoutTask(s.store, t).approvals[a]
    {
      DeletedRow(s, txn, a);
    }
    hide Linked, Kept, Without, StillFirst, Settled, RefsExist, Aligned, RemainingLinks, MovedOn;
    assert after.approvals == WithoutTask(s.store, t).approvals;
  }

  lemma {:induction false} SeenAll(s: State, txn: Txn)
    requires txn.Deleting? && txn.plan.Some? && TxnOk(s, txn)
    requires PlanCommits(s.store, s.tasks, txn.task, txn.plan.value)
    ensures PlanApplied(s.store, txn.plan.value).links == RemainingLinks(s.store, txn.task)
  {
    hide Linked, Without, StillFirst, Settled;
    var t, plan := txn.task, txn.plan.value;
    forall l | l in s.store.links
      ensures l in plan.seen <==> l.task == t
    {
      KeptHas(s.store.links, (x: Link) => x !in plan.seen, l);
      hide Kept;
    }
    KeptSame(s.store.links, (l: Link) => l !in plan.seen, (l: Link) => l.task != t);
  }

  lemma {:induction false} DeletedRow(s: State, txn: Txn, a: ApprovalId)
    requires TablesOk(s) && txn.Deleting? && txn.plan.Some? && TxnOk(s, txn) && a in s.store.approvals
    requires PlanCommits(s.store, s.tasks, txn.task, txn.plan.value)
    ensures var after, expected := PlanApplied(s.store, txn.plan.value), WithoutTask(s.store, txn.task);
            && (a in after.approvals <==> a in expected.approvals)
            && (a in after.approvals ==> after.approvals[a] == expected.approvals[a])
  {
    hide Kept, Without;
    var t, plan := txn.task, txn.plan.value;
    var after := PlanApplied(s.store, plan);
    SeenAll(s, txn);
    var links := RemainingLinks(s.store, t);
    var linked := Linked(links, a);
    LinkedRemaining(s.store.links, t, a);
    if linked != [] {
      LinkedHas(links, a, linked[0]);
    }
    if a in plan.moves {
      if plan.moves[a].None? {
        assert linked == [];
        if t !in s.tasks {
          WithoutAbsent(s, a, t);
        }
      } else {
        assert after.approvals[a].task == plan.moves[a];
        assert plan.moves[a].value in s.tasks;
        if t !in s.tasks {
          WithoutAbsent(s, a, t);
        }
      }
    }
  }

  lemma {:induction false} WithoutNothing(ts: seq<TaskId>, t: TaskId)
    requires t !in ts
    ensures Without(ts, t) == ts
  {
    if ts != [] {
      WithoutNothing(ts[1..], t);
      assert ts == [ts[0]] + ts[1..];
    }
  }

  lemma {:induction false} WithoutAbsent(s: State, a: ApprovalId, t: TaskId)
    requires TablesOk(s) && t !in s.tasks
    ensures Without(Linked(s.store.links, a), t) == Linked(s.store.links, a)
  {
    LinkedHas(s.store.links, a, t);
    assert Link(a, t) !in s.store.links;
    WithoutNothing(Linked(s.store.links, a), t);
  }

  lemma {:induction false} PendingAfterCreate(store: Store, id: ApprovalId, board: BoardId, ids: seq<TaskId>,
                                              status: ApprovalStatus, b: BoardId, a: ApprovalId, t: TaskId)
    requires id !in store.approvals
    ensures PendingFor(WithApproval(store, id, board, ids, status), b, a, t)
            <==> if a == id then board == b && status == Pending && t in ids else PendingFor(store, b, a, t)
  {
    CreateEffect(store, id, board, ids, status);
    hide Effective, Aligned;
  }

  lemma {:induction false} PendingAfterStatus(store: Store, id: ApprovalId, status: ApprovalStatus,
                                              b: BoardId, a: ApprovalId, t: TaskId)
    ensures PendingFor(WithStatus(store, id, status), b, a, t)
            <==> if a == id && id in store.approvals
                 then store.approvals[id].board == b && status == Pending && t in Effective(store, id)
                 else PendingFor(store, b, a, t)
  {
    hide Linked;
  }

  lemma {:induction false} PendingAfterDelete(store: Store, t: TaskId, b: BoardId, a: ApprovalId, u: TaskId)
    requires Aligned(store)
    ensures PendingFor(WithoutTask(store, t), b, a, u) <==> u != t && PendingFor(store, b, a, u)
  {
    if a in store.approvals {
      DeleteEffect(store, t, a);
      WithoutHas(Effective(store, a), t, u);
    }
    hide Effective, Aligned, Without, Linked, Kept;
  }

  // ---------- the other transactions during a commit ----------

  // Locks keep protecting their tasks while nothing new is pending for a held task.
  lemma {:induction false} LocksStillOk(store: Store, tasks: set<TaskId>, after: Store, left: set<TaskId>, txn: Txn)
    requires (txn.Creating? || txn.Restoring?) && LocksOk(store, tasks, txn)
    requires forall t :: t in txn.ids && t in left ==> t in tasks
    requires forall t: TaskId, a: ApprovalId ::
               Exclusive(t) in Held(txn) && a != txn.id && PendingFor(after, txn.board, a, t)
               ==> PendingFor(store, txn.board, a, t)
    ensures LocksOk(after, left, txn)
  {
    hide PendingFor;
  }

  // A transaction that will write a pending approval and has passed its check holds all its tasks.
  lemma HoldsItsTasks(s: State, i: nat, t: TaskId)
    requires Inv(s) && i < |s.txns|
    requires (s.txns[i].Creating? || s.txns[i].Restoring?) && s.txns[i].locks.checked && WritesPending(s.txns[i])
    requires t in s.txns[i].ids && t in s.tasks
    ensures Exclusive(t) in Held(s.txns[i])
    ensures forall j :: 0 <= j < |s.txns| && j != i ==> Exclusive(t) !in Held(s.txns[j])
    ensures forall a: ApprovalId :: a != s.txns[i].id ==> !PendingFor(s.store, s.txns[i].board, a, t)
  {
    hide PendingFor, TablesOk, OnePending, UpdateOk, DeleteOk;
    assert TxnOk(s, s.txns[i]);
    assert Clash(Exclusive(t), Exclusive(t));
  }

  lemma {:induction false} CreateOthers(s: State, i: nat, j: nat)
    requires Inv(s) && i < |s.txns| && j < |s.txns| && i != j
    requires Enabled(s, Commit(i)) && s.txns[i].Creating? && SetOf(s.txns[i].ids) <= s.tasks
    ensures TxnOk(Step(s, Commit(i)), s.txns[j])
  {
    hide PendingFor, Linked, Effective, OnePending, ReplacedLinks;
    var txn, other := s.txns[i], s.txns[j];
    var s' := Step(s, Commit(i));
    assert TxnOk(s, other) && TxnOk(s, txn) && txn.id !in Names(other);
    CreateEffect(s.store, txn.id, txn.board, txn.ids, txn.status);
    forall a: ApprovalId | a != txn.id
      ensures Linked(s'.store.links, a) == Linked(s.store.links, a)
    {
      LinkedAfterReplace(s.store.links, txn.id, txn.ids, a);
    }
    hide Aligned, RefsExist;
    if other.Creating? || other.Restoring? {
      forall t: TaskId, a: ApprovalId | Exclusive(t) in Held(other) && PendingFor(s'.store, other.board, a, t)
        ensures PendingFor(s.store, other.board, a, t)
      {
        PendingAfterCreate(s.store, txn.id, txn.board, txn.ids, txn.status, other.board, a, t);
        if a == txn.id {
          assert t in SetOf(txn.ids);
          HoldsItsTasks(s, i, t);
        }
      }
      LocksStillOk(s.store, s.tasks, s'.store, s'.tasks, other);
    }
    hide LocksOk;
  }

  // What a status write makes pending was pending before, or is a task the writer holds.
  lemma {:induction false} StatusPendingIsHeld(s: State, i: nat, b: BoardId, a: ApprovalId, t: TaskId)
    requires Inv(s) && i < |s.txns|
    requires Enabled(s, Commit(i)) && (s.txns[i].Restoring? || s.txns[i].Resolving?)
    requires PendingFor(Step(s, Commit(i)).store, b, a, t)
    ensures PendingFor(s.store, b, a, t)
            || (&& s.txns[i].Restoring? && a == s.txns[i].id && b == s.txns[i].board
                && t in s.txns[i].ids && t in s.tasks)
  {
    hide PendingFor, Linked, OnePending, LocksOk, DeleteOk, Effective;
    var txn := s.txns[i];
    assert TxnOk(s, txn);
    if txn.Restoring? {
      PendingAfterStatus(s.store, txn.id, Pending, b, a, t);
      if a == txn.id && a in s.store.approvals {
        EffectiveExists(s, a, t);
      }
    } else if txn.target != txn.prior {
      PendingAfterStatus(s.store, txn.id, txn.target, b, a, t);
    }
  }

  lemma {:induction false} EffectiveExists(s: State, a: ApprovalId, t: TaskId)
    requires TablesOk(s) && a in s.store.approvals && t in Effective(s.store, a)
    ensures t in s.tasks
  {
    LinkedHas(s.store.links, a, t);
  }

  lemma {:induction false} StatusOthers(s: State, i: nat, j: nat)
    requires Inv(s) && i < |s.txns| && j < |s.txns| && i != j
    requires Enabled(s, Commit(i)) && (s.txns[i].Restoring? || s.txns[i].Resolving?)
    ensures TxnOk(Step(s, Commit(i)), s.txns[j])
  {
    hide PendingFor, Linked, OnePending, NoClash, Present, RefsExist, Aligned;
    var txn, other := s.txns[i], s.txns[j];
    var s' := Step(s, Commit(i));
    assert TxnOk(s, other) && TxnOk(s, txn);
    assert forall a :: a in s.store.approvals ==> Effective(s'.store, a) == Effective(s.store, a);
    hide Effective, StillFirst;
    if other.Creating? || other.Restoring? {
      forall t: TaskId, a: ApprovalId | Exclusive(t) in Held(other) && PendingFor(s'.store, other.board, a, t)
        ensures PendingFor(s.store, other.board, a, t)
      {
        StatusPendingIsHeld(s, i, other.board, a, t);
        if !PendingFor(s.store, other.board, a, t) {
          HoldsItsTasks(s, i, t);
        }
      }
      LocksStillOk(s.store, s.tasks, s'.store, s'.tasks, other);
    }
    hide LocksOk;
  }

  // An update's view of its approval survives the deletion of a task.
  lemma {:induction false} DeleteKeepsUpdate(store: Store, t: TaskId, txn: Txn)
    requires Aligned(store) && (txn.Reopening? || txn.Restoring?) && UpdateOk(store, txn)
    ensures UpdateOk(WithoutTask(store, t), txn)
  {
    var after := WithoutTask(store, t);
    if txn.id in after.approvals {
      DeleteEffect(store, t, txn.id);
      LinkedRemaining(store.links, t, txn.id);
      forall u: TaskId
        ensures u in Without(Effective(store, txn.id), t) <==> u in Effective(store, txn.id) && u != t
      {
        WithoutHas(Effective(store, txn.id), t, u);
      }
      var linked := Linked(store.links, txn.id);
      if txn.Reopening? && store.approvals[txn.id].task != Some(t) && linked != [] && store.approvals[txn.id].task.Some? {
        WithoutHas(linked, t, store.approvals[txn.id].task.value);
      }
    }
    hide Without, Linked, Kept;
  }

  lemma {:induction false} WithoutFirst(ts: seq<TaskId>, t: TaskId)
    requires ts != [] && ts[0] != t
    ensures Without(ts, t) != [] && Without(ts, t)[0] == ts[0]
  {
  }

  lemma {:induction false} WithoutCommutes(ts: seq<TaskId>, t: TaskId, u: TaskId)
    ensures Without(Without(ts, t), u) == Without(Without(ts, u), t)
  {
    if ts != [] {
      WithoutCommutes(ts[1..], t, u);
      WithoutConcat(if ts[0] != t then [ts[0]] else [], Without(ts[1..], t), u);
      WithoutConcat(if ts[0] != u then [ts[0]] else [], Without(ts[1..], u), t);
    }
  }

  lemma {:induction false} DeleteKeepsFirst(store: Store, tasks: set<TaskId>, named: set<TaskId>, t: TaskId, u: TaskId,
                                            a: ApprovalId, next: TaskId)
    requires StillFirst(store, tasks, named, u, a, next)
    ensures StillFirst(WithoutTask(store, t), tasks - {t}, named, u, a, next)
  {
    hide Linked, Kept, Without;
    LinkedRemaining(store.links, t, a);
    if next in tasks && next != t {
      WithoutFirst(Without(Linked(store.links, a), u), t);
      WithoutCommutes(Linked(store.links, a), u, t);
    }
  }

  lemma {:induction false} DeleteKeepsDelete(store: Store, tasks: set<TaskId>, named: set<TaskId>, t: TaskId, txn: Txn)
    requires Aligned(store) && txn.Deleting? && DeleteOk(store, tasks, named, txn)
    ensures DeleteOk(WithoutTask(store, t), tasks - {t}, named, txn)
  {
    hide Linked, Kept, Without, StillFirst, Aligned;
    var after := WithoutTask(store, t);
    forall a | a in txn.primary && a in after.approvals
      ensures if txn.task in tasks - {t} then after.approvals[a].task == Some(txn.task) else Settled(after, a)
    {
      LinkedRemaining(store.links, t, a);
      var linked := Linked(store.links, a);
      if txn.task !in tasks && linked[0] != t {
        WithoutFirst(linked, t);
      }
    }
    if txn.plan.Some? {
      forall a | a in txn.primary && a in after.approvals && txn.plan.value.moves[a].Some?
        ensures StillFirst(after, tasks - {t}, named, txn.task, a, txn.plan.value.moves[a].value)
      {
        DeleteKeepsFirst(store, tasks, named, t, txn.task, a, txn.plan.value.moves[a].value);
      }
    }
  }

  lemma {:induction false} DeleteOthers(s: State, i: nat, j: nat)
    requires Inv(s) && i < |s.txns| && j < |s.txns| && i != j
    requires Enabled(s, Commit(i)) && s.txns[i].Deleting?
    requires PlanCommits(s.store, s.tasks, s.txns[i].task, s.txns[i].plan.value)
    ensures TxnOk(Step(s, Commit(i)), s.txns[j])
  {
    hide PendingFor, PlanCommits, OnePending;
    var txn, other := s.txns[i], s.txns[j];
    var s' := Step(s, Commit(i));
    assert TxnOk(s, other) && TxnOk(s, txn);
    DeleteIsAtomic(s, txn);
    assert s'.store.approvals.Keys <= s.store.approvals.Keys;
    hide PlanApplied, WithoutTask, DeleteOk, UpdateOk, Effective, Linked, Aligned, RefsExist;
    if other.Creating? || other.Restoring? {
      forall t: TaskId, a: ApprovalId | Exclusive(t) in Held(other) && PendingFor(s'.store, other.board, a, t)
        ensures PendingFor(s.store, other.board, a, t)
      {
        PendingAfterDelete(s.store, txn.task, other.board, a, t);
      }
      LocksStillOk(s.store, s.tasks, s'.store, s'.tasks, other);
    }
    hide LocksOk;
    if other.Reopening? || other.Restoring? {
      DeleteKeepsUpdate(s.store, txn.task, other);
    }
    if other.Deleting? {
      DeleteKeepsDelete(s.store, s.tasks, s.named, txn.task, other);
    }
  }

  // ---------- every step keeps the invariant ----------

  lemma {:induction false} AddTaskKeeps(s: State, t: TaskId)
    requires Inv(s) && Enabled(s, AddTask(t))
    ensures Inv(Step(s, AddTask(t)))
  {
    hide PendingFor, Linked, Effective, Aligned, OnePending, NoClash, Settled;
    var s' := Step(s, AddTask(t));
    forall j | 0 <= j < |s.txns|
      ensures TxnOk(s', s.txns[j])
    {
      var txn := s.txns[j];
      assert TxnOk(s, txn);
      if txn.Creating? || txn.Restoring? {
        assert forall u :: u in txn.ids ==> u in SetOf(txn.ids);
      }
      if txn.Deleting? {
        assert DeleteOk(s'.store, s'.tasks, s'.named, txn);
      }
    }
    hide TxnOk, TablesOk;
    forall j, l | 0 <= j < |s'.txns| && l in Held(s'.txns[j])
      ensures Present(s'.store, s'.tasks, l)
    {
      assert l in Held(s.txns[j]) && Present(s.store, s.tasks, l);
    }
  }

  lemma {:induction false} BeginKeeps(s: State, act: Action)
    requires Inv(s) && Enabled(s, act) && (act.BeginCreate? || act.BeginUpdate? || act.BeginDelete?)
    ensures Inv(Step(s, act))
  {
    hide PendingFor, Linked, Aligned, OnePending, LocksOk, RefsExist, Sorted;
    var s' := Step(s, act);
    var n := |s.txns|;
    var txn := s'.txns[n];
    forall j | 0 <= j < n
      ensures s'.txns[j] == s.txns[j] && TxnOk(s', s.txns[j]) && Names(s.txns[j]) <= s.issued
    {
      assert TxnOk(s, s.txns[j]);
    }
    if act.BeginCreate? {
      if act.status == Pending {
        LocksStartOk(s'.store, s'.tasks, txn);
      } else {
        ReadyNeedsNothing(s'.store, s'.tasks, txn);
      }
    }
    if act.BeginUpdate? {
      ColumnNamed(s, act.id);
    }
    assert Held(txn) == {};
    assert TxnOk(s', txn);
    forall i, j | 0 <= i < |s'.txns| && 0 <= j < |s'.txns| && i != j && s'.txns[i].Creating?
      ensures s'.txns[i].id !in Names(s'.txns[j])
    {
      if i < n {
        assert TxnOk(s, s.txns[i]);
      }
    }
  }

  lemma ColumnNamed(s: State, a: ApprovalId)
    requires TablesOk(s) && a in s.store.approvals
    ensures s.store.approvals[a].task.Some? ==> s.store.approvals[a].task.value in s.named
  {
  }

  lemma ReadyNeedsNothing(store: Store, tasks: set<TaskId>, txn: Txn)
    requires (txn.Creating? || txn.Restoring?) && !WritesPending(txn) && txn.locks.checked
    ensures LocksOk(store, tasks, txn)
  {
  }

  lemma ClashesBothWays(l: Lock, m: Lock)
    ensures Clash(l, m) == Clash(m, l)
  {
  }

  lemma {:induction false} NoClashAfter(txns: seq<Txn>, i: nat, txn: Txn)
    requires NoClash(txns) && i < |txns| && forall l :: l in Held(txn) ==> Free(txns, i, l)
    ensures NoClash(txns[i := txn])
  {
    hide Held, Clash;
    var after := txns[i := txn];
    forall j, k, l, m | 0 <= j < |after| && 0 <= k < |after| && j != k && l in Held(after[j]) && m in Held(after[k])
      ensures !Clash(l, m)
    {
      if k == i {
        assert Free(txns, i, m) && after[j] == txns[j];
        ClashesBothWays(l, m);
      } else if j == i {
        assert Free(txns, i, l) && after[k] == txns[k];
      }
    }
  }

  // A step that replaces one transaction and leaves the tables alone.
  lemma {:induction false} ReplaceKeeps(s: State, i: nat, txn: Txn)
    requires Inv(s) && i < |s.txns| && TxnOk(s, txn)
    requires forall l :: l in Held(txn) ==> Present(s.store, s.tasks, l) && Free(s.txns, i, l)
    requires Names(txn) <= Names(s.txns[i]) && (txn.Creating? ==> s.txns[i].Creating? && txn.id == s.txns[i].id)
    ensures Inv(s.(txns := s.txns[i := txn]))
  {
    hide PendingFor, Linked, Aligned, OnePending, LocksOk, RefsExist, DeleteOk, UpdateOk, NoClash, Free;
    NoClashAfter(s.txns, i, txn);
    var s' := s.(txns := s.txns[i := txn]);
    forall j | 0 <= j < |s'.txns|
      ensures TxnOk(s', s'.txns[j])
    {
      assert TxnOk(s, s.txns[j]);
    }
  }

  lemma {:induction false} OwnStepKeeps(s: State, act: Action)
    requires Inv(s) && Enabled(s, act)
    requires act.LoadLinks? || act.TakeLock? || act.Check? || act.ReadRemaining? || act.Abort?
    ensures Inv(Step(s, act))
  {
    hide PendingFor, Linked, Aligned, OnePending, LocksOk, RefsExist, DeleteOk, UpdateOk, Sorted, TxnOk;
    var i := act.i;
    var txn := s.txns[i];
    assert TxnOk(s, txn);
    match act {
      case LoadLinks(_) => LinksLoadedOk(s, txn); ReplaceKeeps(s, i, LinksLoaded(s.store, txn));
      case TakeLock(_) => LockedOk(s, txn); ReplaceKeeps(s, i, Locked(s.store, s.tasks, txn));
      case Check(_) => CheckedOk(s, txn); ReplaceKeeps(s, i, Checked(s.store, txn));
      case ReadRemaining(_) => PlannedOk(s, txn); ReplaceKeeps(s, i, Planned(s.store, txn));
      case Abort(_) => EndedOk(s); ReplaceKeeps(s, i, Ended);
    }
  }

  lemma EndedOk(s: State)
    ensures TxnOk(s, Ended)
  {
  }

  // The tables after a commit: nothing dangles, and nothing is pending twice.
  lemma {:induction false} CommitTables(s: State, i: nat)
    requires Inv(s) && Enabled(s, Commit(i))
    ensures TablesOk(Step(s, Commit(i))) && OnePending(Step(s, Commit(i)).store)
  {
    hide PendingFor, Linked, LocksOk, DeleteOk, UpdateOk, Sorted, ReplacedLinks, PlanApplied, WithoutTask, Aligned, RefsExist,
         PlanCommits, OnePending;
    var txn := s.txns[i];
    assert TxnOk(s, txn);
    if txn.Creating? && SetOf(txn.ids) <= s.tasks {
      CreateEffect(s.store, txn.id, txn.board, txn.ids, txn.status);
      CreateKeepsRefs(s.store, s.tasks, txn.id, txn.board, txn.ids, txn.status);
      CreateOnePending(s, i);
    } else if txn.Restoring? || txn.Resolving? {
      StatusTables(s.store, s.tasks, txn.id, if txn.Restoring? then Pending else txn.target);
      StatusOnePending(s, i);
    } else if txn.Deleting? && PlanCommits(s.store, s.tasks, txn.task, txn.plan.value) {
      DeleteIsAtomic(s, txn);
      DeleteKeepsAligned(s.store, txn.task);
      DeleteKeepsRefs(s.store, s.tasks, txn.task);
      DeleteOnePending(s.store, txn.task);
      DeleteShrinks(s.store, txn.task);
    }
  }

  lemma DeleteShrinks(store: Store, t: TaskId)
    ensures WithoutTask(store, t).approvals.Keys <= store.approvals.Keys
  {
  }

  lemma {:induction false} StatusTables(store: Store, tasks: set<TaskId>, a: ApprovalId, status: ApprovalStatus)
    requires Aligned(store) && RefsExist(store, tasks)
    ensures Aligned(WithStatus(store, a, status)) && RefsExist(WithStatus(store, a, status), tasks)
  {
    hide Linked;
  }

  lemma {:induction false} DeleteOnePending(store: Store, t: TaskId)
    requires Aligned(store) && OnePending(store)
    ensures OnePending(WithoutTask(store, t))
  {
    hide PendingFor, Aligned, WithoutTask;
    var after := WithoutTask(store, t);
    forall board: BoardId, a: ApprovalId, b: ApprovalId, u: TaskId | PendingFor(after, board, a, u) && PendingFor(after, board, b, u)
      ensures a == b
    {
      PendingAfterDelete(store, t, board, a, u);
      PendingAfterDelete(store, t, board, b, u);
    }
  }

  lemma {:induction false} CreateOnePending(s: State, i: nat)
    requires Inv(s) && Enabled(s, Commit(i)) && s.txns[i].Creating? && SetOf(s.txns[i].ids) <= s.tasks
    ensures OnePending(Step(s, Commit(i)).store)
  {
    hide PendingFor, LocksOk, DeleteOk, UpdateOk, TablesOk, WithApproval;
    var txn, store' := s.txns[i], Step(s, Commit(i)).store;
    assert TxnOk(s, txn);
    forall board: BoardId, a: ApprovalId, b: ApprovalId, t: TaskId | PendingFor(store', board, a, t) && PendingFor(store', board, b, t)
      ensures a == b
    {
      PendingAfterCreate(s.store, txn.id, txn.board, txn.ids, txn.status, board, a, t);
      PendingAfterCreate(s.store, txn.id, txn.board, txn.ids, txn.status, board, b, t);
      if a == txn.id || b == txn.id {
        assert t in SetOf(txn.ids);
        HoldsItsTasks(s, i, t);
      }
    }
  }

  lemma {:induction false} StatusOnePending(s: State, i: nat)
    requires Inv(s) && Enabled(s, Commit(i)) && (s.txns[i].Restoring? || s.txns[i].Resolving?)
    ensures OnePending(Step(s, Commit(i)).store)
  {
    hide PendingFor, LocksOk, DeleteOk, UpdateOk, TablesOk, WithStatus;
    var txn, store' := s.txns[i], Step(s, Commit(i)).store;
    assert TxnOk(s, txn);
    forall board: BoardId, a: ApprovalId, b: ApprovalId, t: TaskId | PendingFor(store', board, a, t) && PendingFor(store', board, b, t)
      ensures a == b
    {
      StatusPendingIsHeld(s, i, board, a, t);
      StatusPendingIsHeld(s, i, board, b, t);
      if !PendingFor(s.store, board, a, t) || !PendingFor(s.store, board, b, t) {
        HoldsItsTasks(s, i, t);
      }
    }
  }

  lemma PlanThere(s: State, txn: Txn)
    requires TxnOk(s, txn)
    ensures txn.Deleting? && txn.locks.checked ==> txn.plan.Some?
  {
  }

  lemma {:induction false} CommitKeeps(s: State, i: nat)
    requires Inv(s) && Enabled(s, Commit(i))
    ensures Inv(Step(s, Commit(i)))
  {
    hide PendingFor, Linked, Aligned, OnePending, LocksOk, RefsExist, DeleteOk, UpdateOk, Sorted, TxnOk, PlanApplied, PlanCommits,
         WithApproval, WithStatus, TablesOk, NoClash, Present;
    assert TxnOk(s, s.txns[i]);
    PlanThere(s, s.txns[i]);
    CommitTables(s, i);
    NoClashAfter(s.txns, i, Ended);
    var s' := Step(s, Commit(i));
    var txn := s.txns[i];
    forall j | 0 <= j < |s'.txns|
      ensures TxnOk(s', s'.txns[j])
    {
      if j == i {
        EndedOk(s');
      } else if txn.Creating? && SetOf(txn.ids) <= s.tasks {
        CreateOthers(s, i, j);
      } else if txn.Restoring? || txn.Resolving? {
        StatusOthers(s, i, j);
      } else if txn.Deleting? && PlanCommits(s.store, s.tasks, txn.task, txn.plan.value) {
        DeleteOthers(s, i, j);
      } else {
        assert TxnOk(s, s.txns[j]);
        TxnOkSame(s, s', s.txns[j]);
      }
    }
    forall j, l | 0 <= j < |s'.txns| && l in Held(s'.txns[j])
      ensures Present(s'.store, s'.tasks, l)
    {
      LockedRowStays(s, i, j, l);
    }
    assert Apart(s');
  }

  // A commit leaves the rows that others hold.
  lemma {:induction false} LockedRowStays(s: State, i: nat, j: nat, l: Lock)
    requires Inv(s) && Enabled(s, Commit(i)) && j < |s.txns| && j != i && l in Held(s.txns[j])
    ensures Present(Step(s, Commit(i)).store, Step(s, Commit(i)).tasks, l)
  {
    hide PendingFor, Linked, Aligned, OnePending, LocksOk, RefsExist, UpdateOk, TablesOk, PlanCommits, Kept, StillFirst, Settled;
    var txn := s.txns[i];
    assert TxnOk(s, txn) && Present(s.store, s.tasks, l);
    if txn.Deleting? {
      assert forall m :: m in Held(txn) ==> !Clash(m, l);
      assert Clash(Exclusive(txn.task), Exclusive(txn.task)) && Clash(Exclusive(txn.task), Shared(txn.task));
      if l.Row? {
        assert Clash(l, l);
      }
    }
  }

  lemma TxnOkSame(s: State, s': State, txn: Txn)
    requires TxnOk(s, txn) && s'.(txns := s.txns) == s
    ensures TxnOk(s', txn)
  {
    hide LocksOk, DeleteOk, UpdateOk;
  }

  lemma {:induction false} StepKeeps(s: State, act: Action)
    requires Inv(s) && Enabled(s, act)
    ensures Inv(Step(s, act))
  {
    hide Inv, Step, Enabled;
    match act {
      case AddTask(t) => AddTaskKeeps(s, t);
      case BeginCreate(_, _, _, _) => BeginKeeps(s, act);
      case BeginUpdate(_, _, _) => BeginKeeps(s, act);
      case BeginDelete(_) => BeginKeeps(s, act);
      case Commit(i) => CommitKeeps(s, i);
      case LoadLinks(_) => OwnStepKeeps(s, act);
      case TakeLock(_) => OwnStepKeeps(s, act);
      case Check(_) => OwnStepKeeps(s, act);
      case ReadRemaining(_) => OwnStepKeeps(s, act);
      case Abort(_) => OwnStepKeeps(s, act);
    }
  }

  // ---------- runs ----------

  ghost predicate Run(s: State, acts: seq<Action>, last: State)
    decreases |acts|
  {
    if acts == [] then s == last
    else Enabled(s, acts[0]) && Run(Step(s, acts[0]), acts[1..], last)
  }

  // Over every interleaving: no task ever has two pending approvals on a board, no link or
  // column names a task that is gone, and the column stays one of the links.
  lemma {:induction false} EveryRunIsSafe(s: State, acts: seq<Action>, last: State)
    requires Inv(s) && Run(s, acts, last)
    ensures Inv(last)
    ensures OnePending(last.store) && Aligned(last.store) && RefsExist(last.store, last.tasks)
    decreases |acts|
  {
    hide Step, Enabled, OnePending, Aligned, RefsExist;
    if acts != [] {
      StepKeeps(s, acts[0]);
      EveryRunIsSafe(Step(s, acts[0]), acts[1..], last);
    }
  }

  lemma {:induction false} RunsChain(s: State, first: seq<Action>, mid: State, second: seq<Action>, last: State)
    requires Run(s, first, mid) && Run(mid, second, last)
    ensures Run(s, first + second, last)
    decreases |first|
  {
    hide Step, Enabled;
    if first == [] {
      assert first + second == second;
    } else {
      RunsChain(Step(s, first[0]), first[1..], mid, second, last);
      assert (first + second)[1..] == first[1..] + second;
    }
  }

  lemma {:induction false} OneMoreStep(s: State, acts: seq<Action>, mid: State, act: Action)
    requires Run(s, acts, mid) && Enabled(mid, act)
    ensures Run(s, acts + [act], Step(mid, act))
  {
    hide Step, Enabled;
    assert [act][1..] == [];
    RunsChain(s, acts, mid, [act], Step(mid, act));
  }

  lemma InitialIsSafe(s: State)
    requires Initial(s)
    ensures Inv(s)
  {
  }
}
