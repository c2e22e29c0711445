/**
 When approval transactions wait for each other. Which of them can take its next step is a
 matter of the graph of waits; only two kinds of requests can close a cycle in it, and both do.
 */
module ApprovalDeadlock {
  import opened Prelude
  import opened Dedup
  import opened ApprovalLinks
  import opened ApprovalProtocol
  import G = DependencyGraph

  predicate IsRunning(s: State, i: nat) {
    i < |s.txns| && !s.txns[i].Ended?
  }

  predicate Quiet(s: State) {
    forall txn :: txn in s.txns ==> txn.Ended?
  }

  // The next step of a running transaction, other than giving up.
  function NextStep(s: State, i: nat): Action
    requires IsRunning(s, i)
  {
    var txn := s.txns[i];
    if txn.Reopening? then LoadLinks(i)
    else if txn.Deleting? && txn.plan.None? then ReadRemaining(i)
    else if txn.locks.rest != [] then TakeLock(i)
    else if txn.locks.checked then Commit(i)
    else Check(i)
  }

  function ActorOf(act: Action): Option<nat> {
    match act
    case LoadLinks(i) => Some(i)
    case TakeLock(i) => Some(i)
    case Check(i) => Some(i)
    case ReadRemaining(i) => Some(i)
    case Commit(i) => Some(i)
    case Abort(i) => Some(i)
    case AddTask(_) => None
    case BeginCreate(_, _, _, _) => None
    case BeginUpdate(_, _, _) => None
    case BeginDelete(_) => None
  }

  // Apart from giving up, a transaction has one step it can take.
  lemma OnlyNextStep(s: State, act: Action)
    requires Inv(s) && Enabled(s, act) && ActorOf(act).Some? && !act.Abort?
    ensures IsRunning(s, ActorOf(act).value) && act == NextStep(s, ActorOf(act).value)
  {
    hide TablesOk, OnePending, Apart, LocksOk, UpdateOk, DeleteOk, Free;
    assert TxnOk(s, s.txns[ActorOf(act).value]);
  }

  // ---------- waiting ----------

  // The lock a transaction needs for its next step.
  function Want(txn: Txn): Option<Lock> {
    if !HasLocks(txn) then None
    else if txn.Deleting? && txn.plan.None? then Some(LinkRows(txn.task))
    else if txn.locks.rest != [] then Some(txn.locks.rest[0])
    else None
  }

  predicate WaitsFor(txns: seq<Txn>, i: nat, j: nat) {
    && i < |txns| && j < |txns| && i != j && Want(txns[i]).Some?
    && exists m :: m in Held(txns[j]) && Clash(Want(txns[i]).value, m)
  }

  // A running transaction can take its next step exactly when it waits for no other.
  lemma {:induction false} GoesIffNoWait(s: State, i: nat)
    requires Inv(s) && IsRunning(s, i)
    ensures Enabled(s, NextStep(s, i)) <==> forall j: nat :: !WaitsFor(s.txns, i, j)
  {
    hide TablesOk, OnePending, Apart, LocksOk, UpdateOk, DeleteOk, Clash, Held;
    assert TxnOk(s, s.txns[i]);
    if Want(s.txns[i]).Some? {
      var l := Want(s.txns[i]).value;
      if !Free(s.txns, i, l) {
        var j, m :| 0 <= j < |s.txns| && j != i && m in Held(s.txns[j]) && Clash(l, m);
        assert WaitsFor(s.txns, i, j);
      }
    }
  }

  function Holders(txns: seq<Txn>, i: nat): set<nat> {
    set j | 0 <= j < |txns| && WaitsFor(txns, i, j)
  }

  // The graph of waits.
  function Waits(txns: seq<Txn>): G.Edges {
    map i | 0 <= i < |txns| :: Holders(txns, i)
  }

  lemma WaitIsEdge(txns: seq<Txn>, i: nat, j: nat)
    ensures j in G.Next(Waits(txns), i) <==> WaitsFor(txns, i, j)
    ensures WaitsFor(txns, i, j) ==> !txns[i].Ended? && !txns[j].Ended?
  {
  }

  // Transactions each of which waits for another of them.
  ghost predicate Stuck(txns: seq<Txn>, d: set<nat>) {
    d != {} && forall i :: i in d ==> WaitsWithin(txns, d, i)
  }

  ghost predicate WaitsWithin(txns: seq<Txn>, d: set<nat>, i: nat) {
    exists j :: j in d && WaitsFor(txns, i, j)
  }

  // There are such transactions if and only if the waits have a cycle.
  lemma {:induction false} StuckIffCycle(txns: seq<Txn>)
    ensures (exists d :: Stuck(txns, d)) <==> !G.Acyclic(Waits(txns))
  {
    hide WaitsFor, Waits, G.Acyclic, Stuck;
    if d :| Stuck(txns, d) {
      StuckIsCyclic(txns, d);
    }
    if !G.Acyclic(Waits(txns)) {
      var p := SomeCycle(Waits(txns));
      var d := CycleIsStuck(txns, p);
    }
  }

  lemma SomeCycle(edges: G.Edges) returns (p: seq<nat>)
    requires !G.Acyclic(edges)
    ensures G.IsPath(edges, p) && G.Repeats(p)
  {
    p :| G.IsPath(edges, p) && G.Repeats(p);
  }

  lemma {:induction false} StuckIsCyclic(txns: seq<Txn>, d: set<nat>)
    requires Stuck(txns, d)
    ensures !G.Acyclic(Waits(txns))
  {
    hide WaitsFor, Waits, G.Acyclic;
    forall i | i in d
      ensures G.Next(Waits(txns), i) * d != {}
    {
      assert WaitsWithin(txns, d, i);
      var j :| j in d && WaitsFor(txns, i, j);
      WaitIsEdge(txns, i, j);
      assert j in G.Next(Waits(txns), i) * d;
    }
    if G.Acyclic(Waits(txns)) {
      var i := G.SomeTaskIsUnblocked(Waits(txns), d);
    }
  }

  lemma {:induction false} CycleIsStuck(txns: seq<Txn>, p: seq<nat>) returns (d: set<nat>)
    requires G.IsPath(Waits(txns), p) && G.Repeats(p)
    ensures Stuck(txns, d) && forall i :: i in d ==> i in p
  {
    hide WaitsFor, Waits;
    var j, k :| 0 <= j < k < |p| && p[j] == p[k];
    var round := p[j..k];
    d := SetOf(round);
    assert round[0] in d;
    forall i | i in d
      ensures WaitsWithin(txns, d, i)
    {
      var n :| 0 <= n < |round| && round[n] == i;
      assert p[j + n] == i && p[j + n + 1] in G.Next(Waits(txns), p[j + n]);
      var next := if n + 1 < |round| then round[n + 1] else round[0];
      assert next == p[j + n + 1] && next in d;
      WaitIsEdge(txns, i, next);
    }
  }

  // They stay so, whatever the others do, until one of them gives up.
  lemma {:induction false} StuckStays(s: State, act: Action, d: set<nat>)
    requires Enabled(s, act) && (act.Abort? ==> act.i !in d)
    requires Inv(s) && Stuck(s.txns, d)
    ensures Stuck(Step(s, act).txns, d)
    ensures ActorOf(act).Some? ==> ActorOf(act).value !in d
  {
    hide Inv, Stuck, Step, Enabled, NextStep, ActorOf;
    StuckCannotStep(s, act, d);
    forall i | i in d && i < |s.txns|
      ensures i < |Step(s, act).txns| && Step(s, act).txns[i] == s.txns[i]
    {
      OthersKept(s, act, i);
    }
    StuckCarries(s.txns, Step(s, act).txns, d);
  }

  lemma {:induction false} StuckCarries(txns: seq<Txn>, after: seq<Txn>, d: set<nat>)
    requires Stuck(txns, d) && forall i :: i in d && i < |txns| ==> i < |after| && after[i] == txns[i]
    ensures Stuck(after, d)
  {
    hide WaitsFor;
    forall i | i in d
      ensures WaitsWithin(after, d, i)
    {
      assert WaitsWithin(txns, d, i);
      var j :| j in d && WaitsFor(txns, i, j);
      WaitersRun(txns, i, j);
      SameWait(txns, after, i, j);
    }
  }

  lemma WaitersRun(txns: seq<Txn>, i: nat, j: nat)
    ensures WaitsFor(txns, i, j) ==> i < |txns| && j < |txns| && !txns[i].Ended? && !txns[j].Ended?
  {
  }

  lemma {:induction false} StuckCannotStep(s: State, act: Action, d: set<nat>)
    requires Inv(s) && Stuck(s.txns, d) && Enabled(s, act)
    requires act.Abort? ==> act.i !in d
    ensures forall i :: i in d ==> ActorOf(act) != Some(i)
  {
    hide WaitsFor, Inv, Enabled;
    if ActorOf(act).Some? && !act.Abort? {
      var i := ActorOf(act).value;
      OnlyNextStep(s, act);
      GoesIffNoWait(s, i);
      assert i in d ==> WaitsWithin(s.txns, d, i);
    }
  }

  lemma OthersKept(s: State, act: Action, i: nat)
    requires Enabled(s, act) && i < |s.txns| && ActorOf(act) != Some(i)
    ensures i < |Step(s, act).txns| && Step(s, act).txns[i] == s.txns[i]
  {
    hide Committed, Locked, Checked, Planned, LinksLoaded, BegunCreate, BegunUpdate;
  }

  lemma SameWait(txns: seq<Txn>, after: seq<Txn>, i: nat, j: nat)
    requires WaitsFor(txns, i, j) && i < |after| && j < |after| && after[i] == txns[i] && after[j] == txns[j]
    ensures WaitsFor(after, i, j)
  {
  }

  // ---------- some transaction can go on ----------

  function Running(s: State): set<nat> {
    set i | 0 <= i < |s.txns| && !s.txns[i].Ended?
  }

  // Where the waits have no cycle, not all running transactions wait.
  lemma {:induction false} SomeoneGoes(s: State) returns (i: nat)
    requires Inv(s) && !Quiet(s) && G.Acyclic(Waits(s.txns))
    ensures IsRunning(s, i) && Enabled(s, NextStep(s, i))
  {
    hide Inv;
    var txn :| txn in s.txns && !txn.Ended?;
    var k :| 0 <= k < |s.txns| && s.txns[k] == txn;
    assert k in Running(s);
    i := G.SomeTaskIsUnblocked(Waits(s.txns), Running(s));
    hide WaitsFor, Waits, G.Acyclic;
    forall j: nat
      ensures !WaitsFor(s.txns, i, j)
    {
      WaitIsEdge(s.txns, i, j);
      WaitersRun(s.txns, i, j);
      assert j !in G.Next(Waits(s.txns), i) * Running(s);
    }
    GoesIffNoWait(s, i);
  }

  // ---------- every request ends, or waits in a cycle ----------

  // A bound on the steps a transaction still takes.
  function Rank(store: Store, txn: Txn): nat {
    match txn
    case Creating(_, _, _, _, locks) => |locks.rest| + (if locks.checked then 1 else 2)
    case Restoring(_, _, _, locks) => |locks.rest| + (if locks.checked then 1 else 3)
    case Reopening(id, _, _) => |Linked(store.links, id)| + 5
    case Resolving(_, _, _, locks) => |locks.rest| + 1
    case Deleting(_, primary, plan, locks) => if plan.None? then 2 * |primary| + 3 else |locks.rest| + 1
    case Ended => 0
  }

  function Ranks(store: Store, txns: seq<Txn>): nat {
    if txns == [] then 0 else Rank(store, txns[0]) + Ranks(store, txns[1..])
  }

  lemma {:induction false} RanksDrop(store: Store, txns: seq<Txn>, after: Store, next: seq<Txn>, i: nat)
    requires |txns| == |next| && i < |txns|
    requires forall j :: 0 <= j < |txns| ==> Rank(after, next[j]) <= Rank(store, txns[j])
    requires Rank(after, next[i]) < Rank(store, txns[i])
    ensures Ranks(after, next) < Ranks(store, txns)
  {
    hide Rank;
    if i == 0 {
      RanksBelow(store, txns[1..], after, next[1..]);
    } else {
      RanksDrop(store, txns[1..], after, next[1..], i - 1);
    }
  }

  lemma {:induction false} RanksBelow(store: Store, txns: seq<Txn>, after: Store, next: seq<Txn>)
    requires |txns| == |next|
    requires forall j :: 0 <= j < |txns| ==> Rank(after, next[j]) <= Rank(store, txns[j])
    ensures Ranks(after, next) <= Ranks(store, txns)
  {
    hide Rank;
    if txns != [] {
      RanksBelow(store, txns[1..], after, next[1..]);
    }
  }

  lemma {:induction false} WithoutShorter(ts: seq<TaskId>, t: TaskId)
    ensures |Without(ts, t)| <= |ts|
  {
    if ts != [] {
      WithoutShorter(ts[1..], t);
    }
  }

  lemma {:induction false} MoveLocksShort(order: seq<ApprovalId>, moves: map<ApprovalId, Option<TaskId>>)
    ensures |MoveLocks(order, moves)| <= 2 * |order|
  {
    if order != [] {
      MoveLocksShort(order[1..], moves);
    }
  }

  lemma {:induction false} PlanLocksShort(plan: Plan, t: TaskId)
    ensures |PlanLocks(plan, t)| <= 2 * |plan.moves.Keys| + 1
  {
    hide Sorted, MoveLocks;
    var moved, gone := MovedOnes(plan, true), MovedOnes(plan, false);
    MoveLocksShort(Sorted(moved), plan.moves);
    MoveLocksShort(Sorted(gone), plan.moves);
    assert moved + gone == plan.moves.Keys && moved * gone == {};
  }

  // No step of one transaction makes another's remaining work longer.
  lemma {:induction false} RankOfOthers(s: State, i: nat, j: nat)
    requires Inv(s) && Enabled(s, Commit(i)) && j < |s.txns| && j != i
    ensures Rank(Step(s, Commit(i)).store, s.txns[j]) <= Rank(s.store, s.txns[j])
  {
    hide PendingFor, Linked, TablesOk, OnePending, LocksOk, DeleteOk, UpdateOk, PlanCommits, Kept, ReplacedLinks;
    var txn, other := s.txns[i], s.txns[j];
    assert TxnOk(s, txn) && TxnOk(s, other);
    if other.Reopening? {
      if txn.Creating? {
        assert txn.id !in Names(other);
        LinkedAfterReplace(s.store.links, txn.id, txn.ids, other.id);
      } else if txn.Deleting? && PlanCommits(s.store, s.tasks, txn.task, txn.plan.value) {
        SeenAll(s, txn);
        LinkedRemaining(s.store.links, txn.task, other.id);
        WithoutShorter(Linked(s.store.links, other.id), txn.task);
      }
    }
  }

  lemma NoPlanNoLocks(s: State, i: nat)
    requires Inv(s) && i < |s.txns|
    ensures s.txns[i].Deleting? && s.txns[i].plan.None? ==> s.txns[i].locks.rest == []
  {
    hide TablesOk, OnePending, Apart, LocksOk, UpdateOk, DeleteOk;
    assert TxnOk(s, s.txns[i]);
  }

  lemma {:induction false} OwnRankDrops(s: State, act: Action)
    requires Inv(s) && Enabled(s, act) && ActorOf(act).Some?
    ensures ActorOf(act).value < |s.txns|
    ensures Rank(Step(s, act).store, Step(s, act).txns[ActorOf(act).value]) < Rank(s.store, s.txns[ActorOf(act).value])
    ensures !act.Commit? ==> Step(s, act).store == s.store
    ensures |Step(s, act).txns| == |s.txns|
  {
    hide Inv, PendingFor, Linked, Conflict, PlanCommits, Committed, Sorted, Planned;
    if act.LoadLinks? {
      var after := LinksLoaded(s.store, s.txns[act.i]);
      SetOfSmaller(after.ids);
    } else if act.ReadRemaining? {
      PlannedRank(s.store, s.txns[act.i]);
    } else if act.TakeLock? {
      NoPlanNoLocks(s, act.i);
    }
  }

  lemma {:induction false} PlannedRank(store: Store, txn: Txn)
    requires txn.Deleting? && txn.plan.None?
    ensures Rank(store, Planned(store, txn)) < Rank(store, txn)
  {
    hide PlanFor, PlanLocks;
    PlanKeys(store, txn);
    PlanLocksShort(PlanFor(store, txn.task, txn.primary), txn.task);
  }

  lemma PlanKeys(store: Store, txn: Txn)
    requires txn.Deleting?
    ensures PlanFor(store, txn.task, txn.primary).moves.Keys == txn.primary
  {
  }

  // Whatever the interleaving, a step of a transaction shortens the work left in all of them.
  lemma {:induction false} StepShortens(s: State, act: Action)
    requires Inv(s) && Enabled(s, act) && ActorOf(act).Some?
    ensures Ranks(Step(s, act).store, Step(s, act).txns) < Ranks(s.store, s.txns)
  {
    OwnRankDrops(s, act);
    hide Step, Rank, Inv, Enabled, Ranks;
    var s', i := Step(s, act), ActorOf(act).value;
    forall j | 0 <= j < |s.txns| && j != i
      ensures Rank(s'.store, s'.txns[j]) <= Rank(s.store, s.txns[j])
    {
      OthersKept(s, act, j);
      if act.Commit? {
        RankOfOthers(s, i, j);
      }
    }
    RanksDrop(s.store, s.txns, s'.store, s'.txns, i);
  }

  // Without new requests, a run is no longer than the work left. Where no transaction can go
  // on, all requests have ended if and only if the waits have no cycle.
  lemma {:induction false} EveryRequestEnds(s: State, acts: seq<Action>, last: State)
    requires Inv(s) && Run(s, acts, last)
    requires forall k :: 0 <= k < |acts| ==> ActorOf(acts[k]).Some?
    ensures |acts| + Ranks(last.store, last.txns) <= Ranks(s.store, s.txns)
    ensures (forall act :: ActorOf(act).Some? && !act.Abort? ==> !Enabled(last, act)) ==>
              (Quiet(last) <==> G.Acyclic(Waits(last.txns)))
    decreases |acts|
  {
    hide Step, Enabled, Ranks, Inv, NextStep, Waits, G.Acyclic;
    if acts != [] {
      StepShortens(s, acts[0]);
      StepKeeps(s, acts[0]);
      EveryRequestEnds(Step(s, acts[0]), acts[1..], last);
    } else if Quiet(last) {
      QuietHasNoWaits(last);
    } else if G.Acyclic(Waits(last.txns)) {
      var i := SomeoneGoes(last);
      NextStepIsOwn(last, i);
    }
  }

  lemma NextStepIsOwn(s: State, i: nat)
    requires IsRunning(s, i)
    ensures ActorOf(NextStep(s, i)) == Some(i) && !NextStep(s, i).Abort?
  {
  }

  lemma {:induction false} QuietHasNoWaits(s: State)
    requires Quiet(s)
    ensures G.Acyclic(Waits(s.txns))
  {
    forall i: nat, j: nat
      ensures !WaitsFor(s.txns, i, j)
    {
      assert i < |s.txns| ==> s.txns[i] in s.txns;
    }
    hide WaitsFor;
    forall p | G.IsPath(Waits(s.txns), p)
      ensures |p| == 1
    {
      if |p| > 1 {
        WaitIsEdge(s.txns, p[0], p[0 + 1]);
      }
    }
  }

  // ---------- which requests close a cycle ----------

  // Locks in an order that most requests follow: links of a task, tasks by id, approvals.
  function Kind(l: Lock): nat {
    match l
    case LinkRows(_) => 0
    case Exclusive(_) => 1
    case Shared(_) => 1
    case Row(_) => 2
  }

  function Number(l: Lock): nat {
    match l
    case LinkRows(t) => t
    case Exclusive(t) => t
    case Shared(t) => t
    case Row(a) => a
  }

  predicate Higher(l: Lock, m: Lock) {
    Kind(l) < Kind(m) || (Kind(l) == Kind(m) && Number(l) < Number(m))
  }

  // Requests that follow it: all but those creates of a resolved approval whose task list is
  // not in ascending order, and deletions of tasks that some approval's column named.
  ghost predicate Disciplined(txn: Txn) {
    && (txn.Creating? && txn.status != Pending ==> Ascending(txn.ids))
    && (txn.Deleting? ==> txn.primary == {})
  }

  // What is held is below what is still wanted, and that is taken upwards.
  ghost predicate Climbs(txn: Txn) {
    HasLocks(txn) ==>
      && (forall h, k :: h in txn.locks.held && 0 <= k < |txn.locks.rest| ==> Higher(h, txn.locks.rest[k]))
      && (forall j, k :: 0 <= j < k < |txn.locks.rest| ==> Higher(txn.locks.rest[j], txn.locks.rest[k]))
      && (txn.Restoring? && !txn.locks.checked ==>
            && (forall h :: h in txn.locks.held ==> Kind(h) == 1)
            && (forall k :: 0 <= k < |txn.locks.rest| ==> Kind(txn.locks.rest[k]) == 1))
  }

  ghost predicate ClimbInv(s: State) {
    forall i :: 0 <= i < |s.txns| && Disciplined(s.txns[i]) ==> Climbs(s.txns[i])
  }

  lemma TaskLocksClimb(ts: seq<TaskId>)
    requires Ascending(ts)
    ensures forall j, k :: 0 <= j < k < |ts| ==> Higher(TaskLocks(ts)[j], TaskLocks(ts)[k])
    ensures forall j, k :: 0 <= j < k < |ts| ==> Higher(LinkLocks(ts)[j], LinkLocks(ts)[k])
    ensures forall k :: 0 <= k < |ts| ==> Kind(TaskLocks(ts)[k]) == 1
  {
  }

  lemma {:induction false} NothingPlanned(store: Store, txn: Txn)
    requires txn.Deleting? && txn.primary == {}
    ensures PlanLocks(PlanFor(store, txn.task, txn.primary), txn.task) == [Exclusive(txn.task)]
  {
    var plan := PlanFor(store, txn.task, txn.primary);
    assert MovedOnes(plan, true) == {} && MovedOnes(plan, false) == {};
    assert Sorted({}) == [];
  }

  lemma {:induction false} LockedClimbs(store: Store, tasks: set<TaskId>, txn: Txn)
    requires HasLocks(txn) && txn.locks.rest != [] && Climbs(txn)
    ensures Climbs(Locked(store, tasks, txn))
  {
    hide Higher, Present;
    var rest := txn.locks.rest;
    assert forall k :: 0 <= k < |rest[1..]| ==> rest[1..][k] == rest[k + 1];
  }

  lemma {:induction false} CheckedClimbs(store: Store, txn: Txn)
    requires (txn.Creating? || txn.Restoring?) && !txn.locks.checked && txn.locks.rest == [] && Climbs(txn)
    ensures Climbs(Checked(store, txn))
  {
    hide Conflict;
  }

  lemma {:induction false} OwnStepClimbs(s: State, act: Action)
    requires Inv(s) && Enabled(s, act) && ActorOf(act).Some?
    requires Disciplined(s.txns[ActorOf(act).value]) ==> Climbs(s.txns[ActorOf(act).value])
    ensures var after := Step(s, act).txns[ActorOf(act).value]; Disciplined(after) ==> Climbs(after)
    ensures Disciplined(s.txns[ActorOf(act).value]) ==> Disciplined(Step(s, act).txns[ActorOf(act).value])
  {
    hide Inv, Conflict, Committed, PlanFor, PlanLocks, Sorted, TaskLocks, Higher, Linked, Climbs, Present;
    var i := ActorOf(act).value;
    var txn := s.txns[i];
    match act {
      case TakeLock(_) => if Disciplined(txn) { LockedClimbs(s.store, s.tasks, txn); } EndedClimbs();
      case Check(_) => if Disciplined(txn) { CheckedClimbs(s.store, txn); } EndedClimbs();
      case LoadLinks(_) => LoadedClimbs(s.store, txn);
      case ReadRemaining(_) => if Disciplined(txn) { PlannedClimbs(s.store, txn); }
      case Commit(_) => EndedClimbs();
      case Abort(_) => EndedClimbs();
      case _ =>
    }
  }

  lemma EndedClimbs()
    ensures Climbs(Ended) && Disciplined(Ended)
  {
  }

  lemma {:induction false} LoadedClimbs(store: Store, txn: Txn)
    requires txn.Reopening?
    ensures Climbs(LinksLoaded(store, txn)) && Disciplined(LinksLoaded(store, txn))
  {
    hide Linked, Sorted, Higher, TaskLocks;
    var after := LinksLoaded(store, txn);
    SortedMeaning(SetOf(after.ids));
    TaskLocksClimb(Sorted(SetOf(after.ids)));
    TaskLocksLength(Sorted(SetOf(after.ids)));
  }

  lemma TaskLocksLength(ts: seq<TaskId>)
    ensures |TaskLocks(ts)| == |LinkLocks(ts)| == |ts|
  {
  }

  lemma {:induction false} PlannedClimbs(store: Store, txn: Txn)
    requires txn.Deleting? && txn.primary == {}
    ensures Climbs(Planned(store, txn))
  {
    NothingPlanned(store, txn);
    hide PlanFor, PlanLocks;
  }

  lemma {:induction false} StepClimbs(s: State, act: Action)
    requires Inv(s) && ClimbInv(s) && Enabled(s, act)
    ensures ClimbInv(Step(s, act))
  {
    hide Inv, Climbs, Disciplined;
    var s' := Step(s, act);
    if ActorOf(act).Some? {
      OwnStepClimbs(s, act);
      forall j | 0 <= j < |s'.txns| && Disciplined(s'.txns[j])
        ensures Climbs(s'.txns[j])
      {
        if j != ActorOf(act).value {
          SameLength(s, act);
          OthersKept(s, act, j);
        }
      }
    } else {
      BegunClimbs(s, act);
    }
  }

  lemma SameLength(s: State, act: Action)
    requires Enabled(s, act) && ActorOf(act).Some?
    ensures |Step(s, act).txns| == |s.txns|
  {
    hide Committed, Locked, Checked, Planned, LinksLoaded;
  }

  lemma {:induction false} BegunClimbs(s: State, act: Action)
    requires ClimbInv(s) && Enabled(s, act) && ActorOf(act).None?
    ensures ClimbInv(Step(s, act))
  {
    hide Sorted, Higher, TaskLocks, LinkLocks;
    var s' := Step(s, act);
    if act.BeginCreate? {
      SortedMeaning(SetOf(act.ids));
      TaskLocksClimb(Sorted(SetOf(act.ids)));
      TaskLocksLength(Sorted(SetOf(act.ids)));
      TaskLocksLength(act.ids);
      if Ascending(act.ids) {
        TaskLocksClimb(act.ids);
      }
    }
    forall j | 0 <= j < |s'.txns| && Disciplined(s'.txns[j])
      ensures Climbs(s'.txns[j])
    {
      if j < |s.txns| {
        assert s'.txns[j] == s.txns[j];
      }
    }
  }

  // A wait leads upwards when the one waited for is disciplined and waits itself.
  lemma WaitsUp(s: State, i: nat, j: nat)
    requires Inv(s) && ClimbInv(s) && WaitsFor(s.txns, i, j) && Disciplined(s.txns[j]) && Want(s.txns[j]).Some?
    ensures Higher(Want(s.txns[i]).value, Want(s.txns[j]).value)
  {
    hide TablesOk, OnePending, Apart, LocksOk, UpdateOk, DeleteOk;
    assert TxnOk(s, s.txns[j]) && Climbs(s.txns[j]);
    var m :| m in Held(s.txns[j]) && Clash(Want(s.txns[i]).value, m);
    assert Kind(m) == Kind(Want(s.txns[i]).value) && Number(m) == Number(Want(s.txns[i]).value);
  }

  lemma PartOfPath(edges: G.Edges, p: seq<nat>, j: nat, k: nat)
    requires G.IsPath(edges, p) && j < k <= |p|
    ensures G.IsPath(edges, p[j..k])
  {
    var part := p[j..k];
    forall n | 0 <= n < |part| - 1
      ensures part[n + 1] in G.Next(edges, part[n])
    {
      assert p[j + n + 1] in G.Next(edges, p[j + n]);
    }
  }

  lemma {:induction false} PathClimbs(s: State, p: seq<nat>)
    requires Inv(s) && ClimbInv(s) && G.IsPath(Waits(s.txns), p) && |p| > 1
    requires forall k :: 0 <= k < |p| ==> p[k] < |s.txns| && Disciplined(s.txns[p[k]]) && Want(s.txns[p[k]]).Some?
    ensures Higher(Want(s.txns[p[0]]).value, Want(s.txns[p[|p| - 1]]).value)
    decreases |p|
  {
    hide Inv, ClimbInv, WaitsFor, Waits, Disciplined, Want;
    assert p[0 + 1] in G.Next(Waits(s.txns), p[0]);
    WaitIsEdge(s.txns, p[0], p[1]);
    WaitsUp(s, p[0], p[1]);
    if |p| > 2 {
      PartOfPath(Waits(s.txns), p, 1, |p|);
      assert p[1..|p|] == p[1..];
      PathClimbs(s, p[1..]);
    }
  }

  // Every cycle of waits goes through a create of a resolved approval with its tasks out of
  // order, or a deletion of a task that an approval's column named.
  lemma {:induction false} CycleIsUndisciplined(s: State, p: seq<nat>)
    requires Inv(s) && ClimbInv(s) && G.IsPath(Waits(s.txns), p) && |p| > 1 && p[0] == p[|p| - 1]
    ensures exists k :: 0 <= k < |p| && p[k] < |s.txns| && !Disciplined(s.txns[p[k]])
  {
    hide Inv, ClimbInv, WaitsFor, Waits, Disciplined, Want, Higher;
    forall k | 0 <= k < |p|
      ensures p[k] < |s.txns| && Want(s.txns[p[k]]).Some?
    {
      var m := if k < |p| - 1 then k else 0;
      assert p[m + 1] in G.Next(Waits(s.txns), p[m]);
      WaitIsEdge(s.txns, p[m], p[m + 1]);
      WaiterWants(s.txns, p[m], p[m + 1]);
    }
    if forall k :: 0 <= k < |p| ==> Disciplined(s.txns[p[k]]) {
      PathClimbs(s, p);
      NotHigherThanItself(Want(s.txns[p[0]]).value);
    }
  }

  lemma WaiterWants(txns: seq<Txn>, i: nat, j: nat)
    requires WaitsFor(txns, i, j)
    ensures i < |txns| && Want(txns[i]).Some?
  {
  }

  lemma NotHigherThanItself(l: Lock)
    ensures !Higher(l, l)
  {
  }

  ghost predicate AllDisciplined(s: State) {
    forall txn :: txn in s.txns ==> Disciplined(txn)
  }

  // So pending creates and updates never lock each other out, nor do other creates that list
  // their tasks in ascending order, nor deletions that no approval's column is in the way of.
  lemma {:induction false} NoDeadlock(s: State)
    requires Inv(s) && ClimbInv(s) && AllDisciplined(s)
    ensures G.Acyclic(Waits(s.txns))
  {
    hide Inv, ClimbInv, Waits, Disciplined;
    forall p | G.IsPath(Waits(s.txns), p)
      ensures !G.Repeats(p)
    {
      forall j, k | 0 <= j < k < |p|
        ensures p[j] != p[k]
      {
        var round := p[j..k + 1];
        if round[0] == round[k - j] {
          PartOfPath(Waits(s.txns), p, j, k + 1);
          CycleIsUndisciplined(s, round);
        }
      }
    }
  }

  lemma QuietIsDisciplined(s: State)
    requires Quiet(s)
    ensures ClimbInv(s) && AllDisciplined(s)
  {
    assert forall i :: 0 <= i < |s.txns| ==> s.txns[i] in s.txns;
  }

  // What keeps a request from ever being part of a cycle, seen when it is made.
  ghost predicate BeginsDisciplined(s: State, act: Action) {
    && (act.BeginCreate? && act.status != Pending ==> Ascending(act.ids))
    && (act.BeginDelete? ==> PrimaryOf(s.store, act.t) == {})
  }

  ghost predicate DisciplinedRun(s: State, acts: seq<Action>, last: State)
    decreases |acts|
  {
    if acts == [] then s == last
    else
      Enabled(s, acts[0]) && BeginsDisciplined(s, acts[0]) && DisciplinedRun(Step(s, acts[0]), acts[1..], last)
  }

  // Where all requests are of that kind, the waits never have a cycle, so a running
  // transaction can always go on.
  lemma {:induction false} DisciplinedRunsGoOn(s: State, acts: seq<Action>, last: State)
    requires Inv(s) && ClimbInv(s) && AllDisciplined(s) && DisciplinedRun(s, acts, last)
    ensures Inv(last) && G.Acyclic(Waits(last.txns))
    ensures !Quiet(last) ==> exists i :: IsRunning(last, i) && Enabled(last, NextStep(last, i))
    decreases |acts|
  {
    hide Inv, ClimbInv, AllDisciplined, Step, Enabled, Waits, BeginsDisciplined, Quiet, NextStep, IsRunning;
    if acts != [] {
      StepKeeps(s, acts[0]);
      StepClimbs(s, acts[0]);
      StaysDisciplined(s, acts[0]);
      DisciplinedRunsGoOn(Step(s, acts[0]), acts[1..], last);
    } else {
      NoDeadlock(s);
      if !Quiet(s) {
        var i := SomeoneGoes(s);
      }
    }
  }

  lemma {:induction false} StaysDisciplined(s: State, act: Action)
    requires Inv(s) && ClimbInv(s) && AllDisciplined(s) && Enabled(s, act) && BeginsDisciplined(s, act)
    ensures AllDisciplined(Step(s, act))
  {
    hide Inv;
    var s' := Step(s, act);
    if ActorOf(act).Some? {
      SameLength(s, act);
      assert s.txns[ActorOf(act).value] in s.txns;
      OwnStepClimbs(s, act);
    }
    forall j | 0 <= j < |s'.txns|
      ensures Disciplined(s'.txns[j])
    {
      if j < |s.txns| && ActorOf(act) != Some(j) {
        OthersKept(s, act, j);
        assert s.txns[j] in s.txns;
      }
    }
  }
}
