/**
 Requests that do come to wait for each other in a cycle, from every quiet state: creates of
 resolved approvals, beside pending ones, and deletions, beside restores.
 */
module ApprovalCycles {
  import opened Prelude
  import opened Dedup
  import opened ApprovalLinks
  import opened ApprovalProtocol
  import opened ApprovalDeadlock
  import G = DependencyGraph

  // ---------- runs from a quiet state ----------

  // Two transactions that wait for each other are a cycle.
  lemma {:induction false} TwoWait(txns: seq<Txn>, i: nat, j: nat)
    requires WaitsFor(txns, i, j) && WaitsFor(txns, j, i)
    ensures !G.Acyclic(Waits(txns))
  {
    WaitIsEdge(txns, i, j);
    WaitIsEdge(txns, j, i);
    hide WaitsFor, Waits;
    var p := [i, j, i];
    assert p[0] == p[2];
    assert G.IsPath(Waits(txns), p);
  }

  lemma WaitFromLocks(txns: seq<Txn>, i: nat, j: nat, l: Lock, m: Lock)
    requires i < |txns| && j < |txns| && i != j && Want(txns[i]) == Some(l) && m in Held(txns[j]) && Clash(l, m)
    ensures WaitsFor(txns, i, j)
  {
  }

  // A state with more transactions.
  function With(s: State, more: seq<Txn>): State {
    s.(txns := s.txns + more)
  }

  lemma {:induction false} FreeAmong(s: State, more: seq<Txn>, r: nat, l: Lock)
    requires Quiet(s) && r < |more|
    requires forall q, m :: 0 <= q < |more| && q != r && m in Held(more[q]) ==> !Clash(l, m)
    ensures Free(With(s, more).txns, |s.txns| + r, l)
  {
    var txns := With(s, more).txns;
    assert forall j :: 0 <= j < |s.txns| ==> txns[j] == s.txns[j] && s.txns[j] in s.txns;
    forall j, m | 0 <= j < |txns| && j != |s.txns| + r && m in Held(txns[j])
      ensures !Clash(l, m)
    {
      if j >= |s.txns| {
        assert txns[j] == more[j - |s.txns|];
      }
    }
  }

  lemma {:induction false} TakeAmong(s: State, more: seq<Txn>, r: nat)
    requires Quiet(s) && r < |more| && HasLocks(more[r]) && more[r].locks.rest != []
    requires forall q, m :: 0 <= q < |more| && q != r && m in Held(more[q]) ==> !Clash(more[r].locks.rest[0], m)
    ensures Enabled(With(s, more), TakeLock(|s.txns| + r))
    ensures Step(With(s, more), TakeLock(|s.txns| + r)) == With(s, more[r := Locked(s.store, s.tasks, more[r])])
  {
    hide Clash, Held, Locked;
    FreeAmong(s, more, r, more[r].locks.rest[0]);
  }

  lemma {:induction false} BeginAmong(s: State, more: seq<Txn>, id: ApprovalId, board: BoardId, ids: seq<TaskId>, status: ApprovalStatus)
    requires id !in s.issued
    ensures Enabled(With(s, more), BeginCreate(id, board, ids, status))
    ensures Step(With(s, more), BeginCreate(id, board, ids, status))
            == With(s.(named := s.named + SetOf(ids), issued := s.issued + {id}), more + [BegunCreate(id, board, ids, status)])
  {
    hide BegunCreate;
  }

  // A transaction that has taken its next m locks.
  function Taken(txn: Txn, m: nat): Txn
    requires HasLocks(txn) && m <= |txn.locks.rest|
  {
    txn.(locks := Locks(txn.locks.checked, txn.locks.held + SetOf(txn.locks.rest[..m]), txn.locks.rest[m..]))
  }

  lemma {:induction false} TakenOneMore(store: Store, tasks: set<TaskId>, txn: Txn, m: nat)
    requires HasLocks(txn) && m < |txn.locks.rest| && Present(store, tasks, txn.locks.rest[m])
    ensures HasLocks(Taken(txn, m)) && Taken(txn, m).locks.rest != [] && Taken(txn, m).locks.rest[0] == txn.locks.rest[m]
    ensures Locked(store, tasks, Taken(txn, m)) == Taken(txn, m + 1)
  {
    hide Present;
    var rest := txn.locks.rest;
    assert rest[m..][1..] == rest[m + 1..];
    assert rest[..m + 1] == rest[..m] + [rest[m]];
    assert SetOf(rest[..m + 1]) == SetOf(rest[..m]) + {rest[m]};
    assert txn.locks.held + SetOf(rest[..m]) + {rest[m]} == txn.locks.held + SetOf(rest[..m + 1]);
  }

  // Locks on rows that are there, and that no other transaction holds, can be taken one by one.
  lemma {:induction false} LocksTaken(s0: State, acts: seq<Action>, s: State, more: seq<Txn>, r: nat, m: nat) returns (longer: seq<Action>)
    requires Run(s0, acts, With(s, more)) && Quiet(s) && r < |more| && HasLocks(more[r]) && m <= |more[r].locks.rest|
    requires forall k :: 0 <= k < m ==> Present(s.store, s.tasks, more[r].locks.rest[k])
    requires forall k, q, l :: 0 <= k < m && 0 <= q < |more| && q != r && l in Held(more[q]) ==> !Clash(more[r].locks.rest[k], l)
    ensures Run(s0, longer, With(s, more[r := Taken(more[r], m)]))
    decreases m
  {
    hide Run, Enabled, Step, Quiet, Present, Clash, Held;
    if m == 0 {
      NothingTakenYet(more[r]);
      longer := acts;
      assert more[r := more[r]] == more;
    } else {
      var before := LocksTaken(s0, acts, s, more, r, m - 1);
      TakenOneMore(s.store, s.tasks, more[r], m - 1);
      hide Taken, Locked;
      var now := more[r := Taken(more[r], m - 1)];
      forall q, l | 0 <= q < |now| && q != r && l in Held(now[q])
        ensures !Clash(now[r].locks.rest[0], l)
      {
        assert now[q] == more[q];
      }
      TakeAmong(s, now, r);
      OneMoreStep(s0, before, With(s, now), TakeLock(|s.txns| + r));
      longer := before + [TakeLock(|s.txns| + r)];
      assert now[r := Taken(more[r], m)] == more[r := Taken(more[r], m)];
    }
  }

  lemma NothingTakenYet(txn: Txn)
    requires HasLocks(txn)
    ensures Taken(txn, 0) == txn
  {
    assert txn.locks.held + SetOf(txn.locks.rest[..0]) == txn.locks.held;
    assert txn.locks.rest[0..] == txn.locks.rest;
  }

  lemma NoSteps(s: State)
    ensures Run(s, [], s)
  {
  }

  lemma StillQuiet(s: State, after: State)
    requires Quiet(s) && after.txns == s.txns
    ensures Quiet(after)
  {
  }

  // ---------- creates ----------

  lemma {:induction false} SortedTwo(u: TaskId, v: TaskId)
    requires u < v
    ensures Sorted({u, v}) == [u, v]
  {
    SortedMeaning({u, v});
    hide Sorted;
    var r := Sorted({u, v});
    assert |{u, v}| == 2;
    assert r[0] in r && r[1] in r && r[0] < r[1];
  }

  lemma {:induction false} SortedOne(t: TaskId)
    ensures Sorted({t}) == [t]
  {
    assert MinOf({t}) == t;
    assert {t} - {t} == {};
  }

  // A pending create about two tasks, before and after it has locked the first.
  lemma {:induction false} PendingTwo(store: Store, tasks: set<TaskId>, id: ApprovalId, board: BoardId, u: TaskId, v: TaskId)
    requires u < v && u in tasks
    ensures BegunCreate(id, board, [u, v], Pending) == Creating(id, board, [u, v], Pending, Locks(false, {}, [Exclusive(u), Exclusive(v)]))
    ensures Locked(store, tasks, BegunCreate(id, board, [u, v], Pending))
            == Creating(id, board, [u, v], Pending, Locks(false, {Exclusive(u)}, [Exclusive(v)]))
  {
    SortedTwo(u, v);
    hide Sorted;
    assert SetOf([u, v]) == {u, v};
    assert TaskLocks([u, v]) == [Exclusive(u), Exclusive(v)];
    assert [Exclusive(u), Exclusive(v)][1..] == [Exclusive(v)];
  }

  // The first place at which a list goes down.
  lemma {:induction false} Descent(ids: seq<TaskId>) returns (k: nat)
    requires Distinct(ids) && !Ascending(ids)
    ensures k + 1 < |ids| && ids[k] > ids[k + 1]
  {
    var i, j :| 0 <= i < j < |ids| && ids[i] >= ids[j];
    if ids[j - 1] > ids[j] {
      k := j - 1;
    } else {
      assert i < j - 1 && ids[i] > ids[j - 1];
      var shorter := ids[..j];
      assert shorter[i] >= shorter[j - 1];
      k := Descent(shorter);
    }
  }

  // A create of a resolved approval that has locked the first m of its tasks.
  lemma {:induction false} SharesHeld(id: ApprovalId, board: BoardId, ids: seq<TaskId>, status: ApprovalStatus, m: nat)
    requires status != Pending && Distinct(ids) && 0 < m < |ids|
    ensures var txn := BegunCreate(id, board, ids, status);
            && txn.Creating? && |txn.locks.rest| == |ids|
            && (forall j :: 0 <= j < |ids| ==> txn.locks.rest[j] == Shared(ids[j]))
            && Held(txn) == {}
            && Want(Taken(txn, m)) == Some(Shared(ids[m])) && Shared(ids[m - 1]) in Held(Taken(txn, m))
            && (forall l :: l in Held(Taken(txn, m)) ==> !Clash(Exclusive(ids[m]), l))
  {
    hide Sorted;
    var txn := BegunCreate(id, board, ids, status);
    var first := txn.locks.rest[..m];
    assert first[m - 1] == Shared(ids[m - 1]);
    assert txn.locks.rest[m..][0] == Shared(ids[m]);
    forall l | l in SetOf(first)
      ensures !Clash(Exclusive(ids[m]), l)
    {
      var j :| 0 <= j < |first| && first[j] == l;
      assert l == Shared(ids[j]);
    }
  }

  // For every list of tasks that is not in ascending order: a create of a resolved approval
  // with that list can, from any quiet state, end up waiting for a pending create that waits
  // for it.
  lemma {:induction false} CreatesCanDeadlock(s: State, ids: seq<TaskId>, status: ApprovalStatus, board: BoardId,
                                              id: ApprovalId, other: ApprovalId)
    returns (acts: seq<Action>, last: State)
    requires Quiet(s) && status != Pending && id !in s.issued && other !in s.issued && id != other
    requires SetOf(ids) <= s.tasks && Distinct(ids) && !Ascending(ids)
    ensures Run(s, acts, last) && WaitsFor(last.txns, |s.txns|, |s.txns| + 1) && WaitsFor(last.txns, |s.txns| + 1, |s.txns|)
    ensures !G.Acyclic(Waits(last.txns))
  {
    hide Run, Enabled, Step, Locked, BegunCreate, Taken, G.Acyclic, Waits, WaitsFor, Ascending, Quiet, Held, Want, Distinct;
    var k := Descent(ids);
    var n, u, v := |s.txns|, ids[k + 1], ids[k];
    var begun, base := BegunCreate(id, board, ids, status), s.(named := s.named + SetOf(ids), issued := s.issued + {id});
    SharesHeld(id, board, ids, status, k + 1);
    NoSteps(s);
    BeginAmong(s, [], id, board, ids, status);
    assert With(s, []) == s && [] + [begun] == [begun];
    OneMoreStep(s, [], s, BeginCreate(id, board, ids, status));
    StillQuiet(s, base);
    assert forall j :: 0 <= j < |ids| ==> ids[j] in SetOf(ids);
    var before := LocksTaken(s, [] + [BeginCreate(id, board, ids, status)], base, [begun], 0, k + 1);
    var sharing, holding := Taken(begun, k + 1), PendingHolding(other, board, u, v);
    assert [begun][0 := sharing] == [sharing];
    var acts2, base2 := PendingJoins(s, before, base, [sharing], other, board, u, v);
    acts, last := acts2, With(base2, [sharing] + [holding]);
    assert last.txns[n] == sharing && last.txns[n + 1] == holding;
    HoldingWaits(other, board, u, v);
    WaitFromLocks(last.txns, n, n + 1, Shared(u), Exclusive(u));
    WaitFromLocks(last.txns, n + 1, n, Exclusive(v), Shared(v));
    TwoWait(last.txns, n, n + 1);
  }

  lemma HoldingWaits(id: ApprovalId, board: BoardId, u: TaskId, v: TaskId)
    ensures Held(PendingHolding(id, board, u, v)) == {Exclusive(u)} && Want(PendingHolding(id, board, u, v)) == Some(Exclusive(v))
  {
  }

  // One more create begins and takes its first lock.
  lemma {:induction false} FirstLockTaken(s0: State, acts: seq<Action>, s: State, more: seq<Txn>, id: ApprovalId, board: BoardId,
                                          ids: seq<TaskId>, status: ApprovalStatus, begun: Txn, after: Txn)
    returns (longer: seq<Action>, base: State)
    requires Run(s0, acts, With(s, more)) && Quiet(s) && id !in s.issued
    requires begun == BegunCreate(id, board, ids, status) && begun.Creating? && begun.locks.rest != [] && after == Locked(s.store, s.tasks, begun)
    requires forall q, m :: 0 <= q < |more| && m in Held(more[q]) ==> !Clash(begun.locks.rest[0], m)
    ensures base == s.(named := s.named + SetOf(ids), issued := s.issued + {id})
    ensures Run(s0, longer, With(base, more + [after]))
  {
    hide Run, Enabled, Step, Locked, BegunCreate, Clash, Held, Quiet;
    base := s.(named := s.named + SetOf(ids), issued := s.issued + {id});
    var n := |more|;
    BeginAmong(s, more, id, board, ids, status);
    OneMoreStep(s0, acts, With(s, more), BeginCreate(id, board, ids, status));
    StillQuiet(s, base);
    TakeAmong(base, more + [begun], n);
    OneMoreStep(s0, acts + [BeginCreate(id, board, ids, status)], With(base, more + [begun]), TakeLock(|s.txns| + n));
    longer := acts + [BeginCreate(id, board, ids, status)] + [TakeLock(|s.txns| + n)];
    assert (more + [begun])[n := after] == more + [after];
  }

  // A create of an approved approval about two tasks, before and after its first lock.
  lemma {:induction false} ApprovedTwo(store: Store, tasks: set<TaskId>, id: ApprovalId, board: BoardId, u: TaskId, v: TaskId)
    requires u in tasks
    ensures BegunCreate(id, board, [u, v], Approved) == Creating(id, board, [u, v], Approved, Locks(true, {}, [Shared(u), Shared(v)]))
    ensures Locked(store, tasks, BegunCreate(id, board, [u, v], Approved))
            == Creating(id, board, [u, v], Approved, Locks(true, {Shared(u)}, [Shared(v)]))
  {
    hide Sorted;
    assert LinkLocks([u, v]) == [Shared(u), Shared(v)];
    assert [Shared(u), Shared(v)][1..] == [Shared(v)];
  }

  // The two kinds of creates, holding the lock of the first of their tasks.
  function PendingHolding(id: ApprovalId, board: BoardId, u: TaskId, v: TaskId): Txn {
    Creating(id, board, [u, v], Pending, Locks(false, {Exclusive(u)}, [Exclusive(v)]))
  }

  function ApprovedHolding(id: ApprovalId, board: BoardId, u: TaskId, v: TaskId): Txn {
    Creating(id, board, [u, v], Approved, Locks(true, {Shared(u)}, [Shared(v)]))
  }

  function Circle(id: ApprovalId, board: BoardId, a: TaskId, b: TaskId, c: TaskId, d: TaskId): seq<Txn> {
    [PendingHolding(id, board, a, b), ApprovedHolding(id + 1, board, b, c), PendingHolding(id + 2, board, c, d),
     ApprovedHolding(id + 3, board, d, a)]
  }

  lemma {:induction false} PendingJoins(s0: State, acts: seq<Action>, s: State, more: seq<Txn>, id: ApprovalId, board: BoardId,
                                        u: TaskId, v: TaskId)
    returns (longer: seq<Action>, base: State)
    requires Run(s0, acts, With(s, more)) && Quiet(s) && id !in s.issued && u < v && u in s.tasks
    requires forall q, m :: 0 <= q < |more| && m in Held(more[q]) ==> !Clash(Exclusive(u), m)
    ensures base == s.(named := s.named + SetOf([u, v]), issued := s.issued + {id}) && Quiet(base)
    ensures Run(s0, longer, With(base, more + [PendingHolding(id, board, u, v)]))
  {
    PendingTwo(s.store, s.tasks, id, board, u, v);
    hide Run, Locked, BegunCreate, Clash, Held;
    longer, base := FirstLockTaken(s0, acts, s, more, id, board, [u, v], Pending, BegunCreate(id, board, [u, v], Pending),
                                   PendingHolding(id, board, u, v));
    StillQuiet(s, base);
  }

  lemma {:induction false} ApprovedJoins(s0: State, acts: seq<Action>, s: State, more: seq<Txn>, id: ApprovalId, board: BoardId,
                                         u: TaskId, v: TaskId)
    returns (longer: seq<Action>, base: State)
    requires Run(s0, acts, With(s, more)) && Quiet(s) && id !in s.issued && u in s.tasks
    requires forall q, m :: 0 <= q < |more| && m in Held(more[q]) ==> !Clash(Shared(u), m)
    ensures base == s.(named := s.named + SetOf([u, v]), issued := s.issued + {id}) && Quiet(base)
    ensures Run(s0, longer, With(base, more + [ApprovedHolding(id, board, u, v)]))
  {
    ApprovedTwo(s.store, s.tasks, id, board, u, v);
    hide Run, Locked, BegunCreate, Clash, Held;
    longer, base := FirstLockTaken(s0, acts, s, more, id, board, [u, v], Approved, BegunCreate(id, board, [u, v], Approved),
                                   ApprovedHolding(id, board, u, v));
    StillQuiet(s, base);
  }

  // A cycle needs no two requests that lock the same rows in opposite orders: four creates,
  // two of them pending, can go round in a circle in which any two share one task at most.
  lemma {:induction false} CirclesCanBeLong(s: State, a: TaskId, b: TaskId, c: TaskId, d: TaskId, board: BoardId, id: ApprovalId)
    returns (acts: seq<Action>, last: State)
    requires Quiet(s) && a < b < c < d && {a, b, c, d} <= s.tasks && forall i :: i in s.issued ==> i < id
    ensures Run(s, acts, last) && !G.Acyclic(Waits(last.txns))
    ensures forall i: nat, j: nat :: WaitsFor(last.txns, i, j) ==> !WaitsFor(last.txns, j, i)
  {
    hide Run, Quiet, Waits, G.Acyclic, WaitsFor;
    NoSteps(s);
    assert With(s, []) == s;
    var acts1, s1 := PendingJoins(s, [], s, [], id, board, a, b);
    var one := [PendingHolding(id, board, a, b)];
    assert [] + one == one;
    var acts2, s2 := ApprovedJoins(s, acts1, s1, one, id + 1, board, b, c);
    var two := one + [ApprovedHolding(id + 1, board, b, c)];
    var acts3, s3 := PendingJoins(s, acts2, s2, two, id + 2, board, c, d);
    var three := two + [PendingHolding(id + 2, board, c, d)];
    var acts4, s4 := ApprovedJoins(s, acts3, s3, three, id + 3, board, d, a);
    acts, last := acts4, With(s4, Circle(id, board, a, b, c, d));
    assert three + [ApprovedHolding(id + 3, board, d, a)] == Circle(id, board, a, b, c, d);
    CircleWaits(id, board, a, b, c, d);
    CircleOfFour(s4, Circle(id, board, a, b, c, d));
  }

  lemma {:induction false} CircleWaits(id: ApprovalId, board: BoardId, a: TaskId, b: TaskId, c: TaskId, d: TaskId)
    requires a < b < c < d
    ensures forall i: nat, j: nat :: WaitsFor(Circle(id, board, a, b, c, d), i, j) <==> i < 4 && j == (i + 1) % 4
  {
    var txns := Circle(id, board, a, b, c, d);
    forall i: nat, j: nat
      ensures WaitsFor(txns, i, j) <==> i < 4 && j == (i + 1) % 4
    {
      if i < 4 && j == (i + 1) % 4 {
        var m := if i == 0 then Shared(b) else if i == 1 then Exclusive(c) else if i == 2 then Shared(d) else Exclusive(a);
        WaitFromLocks(txns, i, j, Want(txns[i]).value, m);
      }
    }
  }

  // Who waits for whom in the circle.
  lemma {:induction false} CircleOfFour(s: State, more: seq<Txn>)
    requires Quiet(s)
    requires forall i: nat, j: nat :: WaitsFor(more, i, j) <==> i < 4 && j == (i + 1) % 4
    ensures !G.Acyclic(Waits(With(s, more).txns))
    ensures forall i: nat, j: nat :: WaitsFor(With(s, more).txns, i, j) ==> !WaitsFor(With(s, more).txns, j, i)
  {
    var n, txns := |s.txns|, With(s, more).txns;
    forall i: nat, j: nat
      ensures WaitsFor(txns, i, j) <==> i >= n && j >= n && WaitsFor(more, i - n, j - n)
    {
      WaitsAmong(s, more, i, j);
    }
    hide WaitsFor, Waits;
    WaitIsEdge(txns, n, n + 1);
    WaitIsEdge(txns, n + 1, n + 2);
    WaitIsEdge(txns, n + 2, n + 3);
    WaitIsEdge(txns, n + 3, n);
    var p := [n, n + 1, n + 2, n + 3, n];
    assert p[0] == p[4];
    assert G.IsPath(Waits(txns), p);
  }

  // Only running transactions wait or are waited for.
  lemma {:induction false} WaitsAmong(s: State, more: seq<Txn>, i: nat, j: nat)
    requires Quiet(s)
    ensures WaitsFor(With(s, more).txns, i, j) <==> i >= |s.txns| && j >= |s.txns| && WaitsFor(more, i - |s.txns|, j - |s.txns|)
  {
    var txns := With(s, more).txns;
    assert forall k :: 0 <= k < |s.txns| ==> txns[k] == s.txns[k] && s.txns[k] in s.txns;
    assert forall k :: |s.txns| <= k < |txns| ==> txns[k] == more[k - |s.txns|];
  }

  // ---------- restores ----------

  // A restore as it starts to lock its tasks.
  ghost function RestoreLoaded(s: State, a: ApprovalId): Txn
    requires a in s.store.approvals
  {
    var ids := Effective(s.store, a);
    Restoring(a, s.store.approvals[a].board, ids, Locks(false, {}, TaskLocks(Sorted(SetOf(ids)))))
  }

  // When it holds them all, before and after its conflict check.
  ghost function Restorer(s: State, a: ApprovalId, checked: bool): Txn
    requires a in s.store.approvals
  {
    var ids := Effective(s.store, a);
    Restoring(a, s.store.approvals[a].board, ids,
              Locks(checked, SetOf(TaskLocks(Sorted(SetOf(ids)))), if checked then [Row(a)] else []))
  }

  lemma {:induction false} RestorerHolds(s: State, a: ApprovalId)
    requires a in s.store.approvals
    ensures forall l :: l in Held(Restorer(s, a, true)) ==> l.Exclusive?
    ensures forall t :: t in Effective(s.store, a) ==> Exclusive(t) in Held(Restorer(s, a, true))
    ensures Want(Restorer(s, a, true)) == Some(Row(a))
  {
    hide Sorted, Effective;
    var ids := Effective(s.store, a);
    SortedMeaning(SetOf(ids));
    forall t | t in ids
      ensures Exclusive(t) in SetOf(TaskLocks(Sorted(SetOf(ids))))
    {
      assert t in SetOf(ids);
      TaskLocksHave(Sorted(SetOf(ids)), t);
    }
    OnlyExclusive(Sorted(SetOf(ids)));
  }

  lemma OnlyExclusive(ts: seq<TaskId>)
    ensures forall l :: l in SetOf(TaskLocks(ts)) ==> l.Exclusive? && l.t in ts
  {
  }

  lemma {:induction false} RestoreBegins(s: State, a: ApprovalId)
    requires a in s.store.approvals && s.store.approvals[a].status != Pending
    ensures var board, reopening := s.store.approvals[a].board, Reopening(a, s.store.approvals[a].board, s.store.approvals[a].task);
            && Enabled(s, BeginUpdate(a, board, Pending))
            && Step(s, BeginUpdate(a, board, Pending)) == With(s, [reopening])
            && Enabled(With(s, [reopening]), LoadLinks(|s.txns|))
            && Step(With(s, [reopening]), LoadLinks(|s.txns|)) == With(s, [RestoreLoaded(s, a)])
  {
    var reopening := Reopening(a, s.store.approvals[a].board, s.store.approvals[a].task);
    hide Linked, Sorted, TaskLocks;
    assert LinksLoaded(s.store, reopening) == RestoreLoaded(s, a);
    hide LinksLoaded, RestoreLoaded;
    assert With(s, [reopening]).txns[|s.txns| := RestoreLoaded(s, a)] == With(s, [RestoreLoaded(s, a)]).txns;
  }

  lemma {:induction false} RestoreTakes(s: State, a: ApprovalId)
    requires TablesOk(s) && a in s.store.approvals
    ensures var loaded := RestoreLoaded(s, a);
            && Taken(loaded, |loaded.locks.rest|) == Restorer(s, a, false)
            && forall k :: 0 <= k < |loaded.locks.rest| ==> Present(s.store, s.tasks, loaded.locks.rest[k])
  {
    hide Effective, Sorted, TablesOk;
    var ids := Effective(s.store, a);
    var loaded, ts := RestoreLoaded(s, a), Sorted(SetOf(ids));
    var rest := loaded.locks.rest;
    assert rest[..|rest|] == rest && {} + SetOf(rest) == SetOf(rest);
    SortedMeaning(SetOf(ids));
    forall k | 0 <= k < |rest|
      ensures Present(s.store, s.tasks, rest[k])
    {
      assert rest[k] == Exclusive(ts[k]) && ts[k] in ts;
      assert ts[k] in SetOf(ids);
      EffectiveExists(s, a, ts[k]);
    }
  }

  lemma {:induction false} RestoreChecks(s: State, a: ApprovalId)
    requires a in s.store.approvals
    requires forall b: ApprovalId, t: TaskId :: b != a && t in Effective(s.store, a) ==> !PendingFor(s.store, s.store.approvals[a].board, b, t)
    ensures Enabled(With(s, [Restorer(s, a, false)]), Check(|s.txns|))
    ensures Step(With(s, [Restorer(s, a, false)]), Check(|s.txns|)) == With(s, [Restorer(s, a, true)])
  {
    hide PendingFor, Effective, Sorted, TaskLocks;
    var locked := Restorer(s, a, false);
    assert !Conflict(s.store, s.store.approvals[a].board, Effective(s.store, a), a);
    assert Checked(s.store, locked) == Restorer(s, a, true);
    hide Checked, Restorer;
    assert With(s, [locked]).txns[|s.txns| := Restorer(s, a, true)] == With(s, [Restorer(s, a, true)]).txns;
  }

  // The restore up to the point where only the approval's row is missing.
  lemma {:induction false} RestoreReady(s: State, a: ApprovalId) returns (acts: seq<Action>)
    requires TablesOk(s) && Quiet(s) && a in s.store.approvals && s.store.approvals[a].status != Pending
    requires forall b: ApprovalId, t: TaskId :: b != a && t in Effective(s.store, a) ==> !PendingFor(s.store, s.store.approvals[a].board, b, t)
    ensures Run(s, acts, With(s, [Restorer(s, a, true)]))
  {
    hide Run, Enabled, Step, TablesOk, Quiet, PendingFor, Effective, Restorer, Taken, Present, Clash;
    var n, board := |s.txns|, s.store.approvals[a].board;
    var loaded := RestoreLoaded(s, a);
    RestoreBegins(s, a);
    NoSteps(s);
    OneMoreStep(s, [], s, BeginUpdate(a, board, Pending));
    OneMoreStep(s, [] + [BeginUpdate(a, board, Pending)], With(s, [Reopening(a, board, s.store.approvals[a].task)]), LoadLinks(n));
    RestoreTakes(s, a);
    var locking := LocksTaken(s, [] + [BeginUpdate(a, board, Pending)] + [LoadLinks(n)], s, [loaded], 0, |loaded.locks.rest|);
    assert [loaded][0 := Restorer(s, a, false)] == [Restorer(s, a, false)];
    RestoreChecks(s, a);
    OneMoreStep(s, locking, With(s, [Restorer(s, a, false)]), Check(n));
    acts := locking + [Check(n)];
  }

  // ---------- beside a deletion ----------

  // The deletion begins and reads beside the restore.
  lemma {:induction false} DeleteAmong(s: State, t: TaskId, restorer: Txn)
    requires Quiet(s) && t in s.tasks && forall l :: l in Held(restorer) ==> l.Exclusive?
    ensures var starting := Deleting(t, PrimaryOf(s.store, t), None, Locks(false, {}, []));
            && Enabled(With(s, [restorer]), BeginDelete(t))
            && Step(With(s, [restorer]), BeginDelete(t)) == With(s, [restorer, starting])
            && Enabled(With(s, [restorer, starting]), ReadRemaining(|s.txns| + 1))
            && Step(With(s, [restorer, starting]), ReadRemaining(|s.txns| + 1)) == With(s, [restorer, Planned(s.store, starting)])
  {
    hide Planned, PrimaryOf;
    var starting := Deleting(t, PrimaryOf(s.store, t), None, Locks(false, {}, []));
    assert [restorer] + [starting] == [restorer, starting];
    FreeAmong(s, [restorer, starting], 1, LinkRows(t));
    assert With(s, [restorer, starting]).txns[|s.txns| + 1 := Planned(s.store, starting)]
        == With(s, [restorer, Planned(s.store, starting)]).txns;
  }

  lemma {:induction false} RowsOnly(order: seq<ApprovalId>, moves: map<ApprovalId, Option<TaskId>>)
    requires forall a :: a in order ==> a in moves && moves[a].None?
    ensures |MoveLocks(order, moves)| == |order|
    ensures forall k :: 0 <= k < |order| ==> MoveLocks(order, moves)[k] == Row(order[k])
  {
    if order != [] {
      assert order == [order[0]] + order[1..];
      RowsOnly(order[1..], moves);
    }
  }

  lemma FirstMoves(order: seq<ApprovalId>, moves: map<ApprovalId, Option<TaskId>>)
    requires order != [] && order[0] in moves && moves[order[0]].Some?
    ensures |MoveLocks(order, moves)| >= 2
    ensures MoveLocks(order, moves)[0] == Row(order[0]) && MoveLocks(order, moves)[1] == Shared(moves[order[0]].value)
  {
  }

  // The first approval whose row a deletion locks.
  ghost function FirstLocked(plan: Plan): ApprovalId
    requires plan.moves.Keys != {}
  {
    if MovedOnes(plan, true) != {} then MinOf(MovedOnes(plan, true)) else MinOf(MovedOnes(plan, false))
  }

  ghost function FirstOf(store: Store, t: TaskId): ApprovalId
    requires PrimaryOf(store, t) != {}
  {
    PlanForKeys(store, t);
    FirstLocked(PlanFor(store, t, PrimaryOf(store, t)))
  }

  lemma SortedHead(ts: set<TaskId>)
    requires ts != {}
    ensures Sorted(ts) != [] && Sorted(ts)[0] == MinOf(ts)
  {
  }

  lemma {:induction false} MovedCourse(plan: Plan, t: TaskId)
    requires MovedOnes(plan, true) != {}
    ensures FirstLocked(plan) in plan.moves && plan.moves[FirstLocked(plan)].Some?
    ensures |PlanLocks(plan, t)| > 1 && PlanLocks(plan, t)[0] == Row(FirstLocked(plan))
    ensures PlanLocks(plan, t)[1] == Shared(plan.moves[FirstLocked(plan)].value)
  {
    hide Sorted, MoveLocks;
    var order := Sorted(MovedOnes(plan, true));
    SortedHead(MovedOnes(plan, true));
    FirstMoves(order, plan.moves);
  }

  lemma {:induction false} GoneCourse(plan: Plan, t: TaskId)
    requires plan.moves.Keys != {} && MovedOnes(plan, true) == {}
    ensures var m := |MovedOnes(plan, false)|;
            && 0 < m && |PlanLocks(plan, t)| == m + 1 && PlanLocks(plan, t)[m] == Exclusive(t)
            && FirstLocked(plan) in plan.moves && PlanLocks(plan, t)[0] == Row(FirstLocked(plan))
            && forall k :: 0 <= k < m ==> PlanLocks(plan, t)[k].Row? && PlanLocks(plan, t)[k].a in plan.moves
  {
    hide PlanLocks, Sorted, MovedOnes, MoveLocks, FirstLocked;
    var gone := MovedOnes(plan, false);
    var order := Sorted(gone);
    GoneMeaning(plan);
    SortedMeaning(gone);
    SortedHead(gone);
    RowsOnly(order, plan.moves);
    GoneLocks(plan, t);
    forall k | 0 <= k < |order|
      ensures PlanLocks(plan, t)[k] == Row(order[k]) && order[k] in plan.moves
    {
      assert order[k] in order;
    }
  }

  lemma {:induction false} GoneLocks(plan: Plan, t: TaskId)
    requires MovedOnes(plan, true) == {}
    ensures PlanLocks(plan, t) == MoveLocks(Sorted(MovedOnes(plan, false)), plan.moves) + [Exclusive(t)]
  {
    NothingSorted();
    EmptyMoves(plan.moves);
    hide Sorted, MovedOnes, MoveLocks;
    var locks := MoveLocks(Sorted(MovedOnes(plan, false)), plan.moves);
    assert [] + locks == locks;
  }

  lemma NothingSorted()
    ensures Sorted({}) == []
  {
  }

  lemma GoneMeaning(plan: Plan)
    ensures forall a :: a in MovedOnes(plan, false) ==> a in plan.moves && plan.moves[a].None?
    ensures MovedOnes(plan, true) == {} ==> MovedOnes(plan, false) == plan.moves.Keys
    ensures MovedOnes(plan, true) == {} && plan.moves.Keys != {} ==> FirstLocked(plan) == MinOf(MovedOnes(plan, false))
  {
    assert MovedOnes(plan, true) + MovedOnes(plan, false) == plan.moves.Keys;
  }

  lemma PlanForKeys(store: Store, t: TaskId)
    ensures PlanFor(store, t, PrimaryOf(store, t)).moves.Keys == PrimaryOf(store, t)
  {
  }

  // A deletion locks that row, perhaps more rows, and then a task that approval is about:
  // the one its column moves on to, or the deleted one.
  lemma {:induction false} PlanCourse(s: State, t: TaskId) returns (m: nat)
    requires TablesOk(s) && PrimaryOf(s.store, t) != {}
    ensures var plan := PlanFor(s.store, t, PrimaryOf(s.store, t));
            var locks := PlanLocks(plan, t);
            && plan.moves.Keys == PrimaryOf(s.store, t)
            && 0 < m < |locks| && locks[0] == Row(FirstLocked(plan)) && FirstLocked(plan) in PrimaryOf(s.store, t)
            && (forall k :: 0 <= k < m ==> locks[k].Row? && locks[k].a in PrimaryOf(s.store, t))
            && (locks[m].Shared? || locks[m].Exclusive?) && locks[m].t in Effective(s.store, FirstLocked(plan))
  {
    hide PlanFor, PlanLocks, FirstLocked, TablesOk, Effective, PrimaryOf, MovedOnes;
    var plan := PlanFor(s.store, t, PrimaryOf(s.store, t));
    PlanForKeys(s.store, t);
    if MovedOnes(plan, true) != {} {
      MovedCourse(plan, t);
      MovesOnWithin(s, t, FirstLocked(plan));
      m := 1;
    } else {
      GoneCourse(plan, t);
      ColumnIsAbout(s, t, FirstLocked(plan));
      m := |MovedOnes(plan, false)|;
    }
  }

  lemma EmptyMoves(moves: map<ApprovalId, Option<TaskId>>)
    ensures MoveLocks([], moves) == []
  {
  }

  lemma ColumnIsAbout(s: State, t: TaskId, a: ApprovalId)
    requires TablesOk(s) && a in PrimaryOf(s.store, t)
    ensures t in Effective(s.store, a)
  {
  }

  lemma MovesOnWithin(s: State, t: TaskId, a: ApprovalId)
    requires a in PrimaryOf(s.store, t)
    ensures var moves := PlanFor(s.store, t, PrimaryOf(s.store, t)).moves;
            a in moves && (moves[a].Some? ==> moves[a].value in Effective(s.store, a))
  {
    var others := Without(Linked(s.store.links, a), t);
    LinkedRemaining(s.store.links, t, a);
    if others != [] {
      WithoutHas(Linked(s.store.links, a), t, others[0]);
    }
    hide Without, Kept, Linked;
  }

  // From any quiet state: when the first approval whose row the deletion of a task locks is
  // resolved, and no other is pending on its board for the tasks it is about, restoring it and
  // deleting the task can end up waiting for each other.
  lemma {:induction false} RestoreAndDeleteCanDeadlock(s: State, t: TaskId) returns (acts: seq<Action>, last: State)
    requires TablesOk(s) && Quiet(s) && t in s.tasks && PrimaryOf(s.store, t) != {}
    requires CanRestore(s, FirstOf(s.store, t))
    ensures Run(s, acts, last) && WaitsFor(last.txns, |s.txns|, |s.txns| + 1) && WaitsFor(last.txns, |s.txns| + 1, |s.txns|)
    ensures last.txns[|s.txns| + 1].Deleting? && last.txns[|s.txns| + 1].task == t
            && last.txns[|s.txns| + 1].primary == PrimaryOf(s.store, t)
    ensures !G.Acyclic(Waits(last.txns))
  {
    hide Run, Enabled, Step, G.Acyclic, Waits, WaitsFor, TablesOk, Quiet, PrimaryOf, PendingFor, Effective, PlanFor, PlanLocks, FirstLocked;
    var n, primary := |s.txns|, PrimaryOf(s.store, t);
    var plan := PlanFor(s.store, t, primary);
    var m := PlanCourse(s, t);
    var a := FirstLocked(plan);
    PrimaryThere(s.store, t);
    var before := RestoreReady(s, a);
    var restorer := Restorer(s, a, true);
    RestorerHolds(s, a);
    hide Restorer;
    DeleteAmong(s, t, restorer);
    var starting := Deleting(t, primary, None, Locks(false, {}, []));
    OneMoreStep(s, before, With(s, [restorer]), BeginDelete(t));
    OneMoreStep(s, before + [BeginDelete(t)], With(s, [restorer, starting]), ReadRemaining(n + 1));
    var planned := Planned(s.store, starting);
    assert planned.locks.rest == PlanLocks(plan, t);
    acts := LocksTaken(s, before + [BeginDelete(t)] + [ReadRemaining(n + 1)], s, [restorer, planned], 1, m);
    var holding := Taken(planned, m);
    last := With(s, [restorer, planned][1 := holding]);
    assert last.txns[n] == restorer && last.txns[n + 1] == holding;
    TakenWants(planned, m);
    var l := planned.locks.rest[m];
    WaitFromLocks(last.txns, n, n + 1, Row(a), Row(a));
    WaitFromLocks(last.txns, n + 1, n, l, Exclusive(l.t));
    TwoWait(last.txns, n, n + 1);
  }

  // It is resolved, and its restore passes its conflict check.
  ghost predicate CanRestore(s: State, a: ApprovalId) {
    && a in s.store.approvals && s.store.approvals[a].status != Pending
    && forall b: ApprovalId, u: TaskId :: b != a && u in Effective(s.store, a) ==> !PendingFor(s.store, s.store.approvals[a].board, b, u)
  }

  lemma PrimaryThere(store: Store, t: TaskId)
    ensures PrimaryOf(store, t) <= store.approvals.Keys
  {
  }

  lemma TakenWants(txn: Txn, m: nat)
    requires txn.Deleting? && txn.plan.Some? && 0 < m < |txn.locks.rest|
    ensures var after := Taken(txn, m);
            && after.Deleting? && after.task == txn.task && after.primary == txn.primary
            && Want(after) == Some(txn.locks.rest[m]) && txn.locks.rest[0] in Held(after)
  {
    assert txn.locks.rest[..m][0] == txn.locks.rest[0];
  }
}
