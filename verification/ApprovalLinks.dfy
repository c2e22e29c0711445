/**
 Approvals and the tasks they are about: a link table with any number of tasks for an
 approval, beside the older single task column. Several readers interpret the two; here
 each is tied to one notion, the effective tasks of an approval.
 */
module ApprovalLinks {
  import opened Prelude
  import opened Dedup

  type TaskId = nat
  type BoardId = nat
  type ApprovalId = nat

  datatype ApprovalStatus = Pending | Approved | Rejected

  datatype Approval = Approval(board: BoardId, task: Option<TaskId>, status: ApprovalStatus)

  datatype Link = Link(approval: ApprovalId, task: TaskId)

  // Links are kept in insertion order.
  datatype Store = Store(approvals: map<ApprovalId, Approval>, links: seq<Link>)

  // The tasks linked to an approval, in insertion order.
  function Linked(links: seq<Link>, a: ApprovalId): seq<TaskId> {
    if links == [] then []
    else (if links[0].approval == a then [links[0].task] else []) + Linked(links[1..], a)
  }

  // The tasks an approval is about: its links, or the task column when it has none.
  function Effective(s: Store, a: ApprovalId): seq<TaskId>
    requires a in s.approvals
  {
    var linked := Linked(s.links, a);
    if linked != [] then linked
    else if s.approvals[a].task.Some? then [s.approvals[a].task.value]
    else []
  }

  predicate About(s: Store, a: ApprovalId, t: TaskId) {
    a in s.approvals && t in Effective(s, a)
  }

  predicate PendingFor(s: Store, board: BoardId, a: ApprovalId, t: TaskId) {
    About(s, a, t) && s.approvals[a].board == board && s.approvals[a].status == Pending
  }

  // The task column is empty or one of the links, unless there are no links.
  predicate Aligned(s: Store) {
    forall a :: a in s.approvals ==>
      var task, linked := s.approvals[a].task, Linked(s.links, a);
      task.None? || linked == [] || task.value in linked
  }

  lemma {:induction false} LinkedHas(links: seq<Link>, a: ApprovalId, t: TaskId)
    ensures t in Linked(links, a) <==> Link(a, t) in links
  {
    if links != [] {
      LinkedHas(links[1..], a, t);
      assert links == [links[0]] + links[1..];
    }
  }

  lemma LinkedStep(l: Link, links: seq<Link>, a: ApprovalId)
    ensures Linked([l] + links, a) == (if l.approval == a then [l.task] else []) + Linked(links, a)
  {
    assert ([l] + links)[1..] == links;
  }

  lemma {:induction false} LinkedConcat(xs: seq<Link>, ys: seq<Link>, a: ApprovalId)
    ensures Linked(xs + ys, a) == Linked(xs, a) + Linked(ys, a)
  {
    if xs == [] {
      assert xs + ys == ys;
    } else {
      hide Linked;
      var first, rest := xs[0], xs[1..];
      assert xs == [first] + rest && xs + ys == [first] + (rest + ys);
      LinkedConcat(rest, ys, a);
      LinkedStep(first, rest, a);
      LinkedStep(first, rest + ys, a);
    }
  }

  // ---------- readers ----------

  // Task ids grouped by approval, in insertion order.
  method LoadTaskIdsByApproval(s: Store, ids: set<ApprovalId>) returns (mapping: map<ApprovalId, seq<TaskId>>)
    ensures mapping.Keys == ids
    ensures forall a :: a in ids ==> mapping[a] == Linked(s.links, a)
  {
    mapping := map a | a in ids :: [];
    for i := 0 to |s.links|
      invariant mapping.Keys == ids
      invariant forall a :: a in ids ==> mapping[a] == Linked(s.links[..i], a)
    {
      var row := s.links[i];
      assert s.links[..i + 1] == s.links[..i] + [row];
      forall a | a in ids
        ensures Linked(s.links[..i + 1], a) == Linked(s.links[..i], a) + (if row.approval == a then [row.task] else [])
      {
        LinkedConcat(s.links[..i], [row], a);
      }
      if row.approval in ids {
        mapping := mapping[row.approval := mapping[row.approval] + [row.task]];
      }
    }
    assert s.links[..|s.links|] == s.links;
  }

  // The task ids shown with each approval.
  method ApprovalTaskIdsMap(s: Store, ids: seq<ApprovalId>) returns (mapping: map<ApprovalId, seq<TaskId>>)
    requires forall a :: a in ids ==> a in s.approvals
    ensures mapping.Keys == SetOf(ids)
    ensures forall a :: a in ids ==> mapping[a] == Effective(s, a)
  {
    mapping := LoadTaskIdsByApproval(s, SetOf(ids));
    for i := 0 to |ids|
      invariant mapping.Keys == SetOf(ids)
      invariant forall a :: a in ids ==> mapping[a] == Linked(s.links, a) || mapping[a] == Effective(s, a)
      invariant forall a :: a in ids[..i] ==> mapping[a] == Effective(s, a)
    {
      var a := ids[i];
      assert ids[..i + 1] == ids[..i] + [a];
      if mapping[a] != [] {
        continue;
      }
      if s.approvals[a].task.Some? {
        mapping := mapping[a := [s.approvals[a].task.value]];
      } else {
        mapping := mapping[a := []];
      }
    }
  }

  // ---------- pending conflicts ----------

  predicate PendingOther(s: Store, board: BoardId, exclude: Option<ApprovalId>, a: ApprovalId) {
    && a in s.approvals && s.approvals[a].board == board && s.approvals[a].status == Pending
    && exclude != Some(a)
  }

  function RowsFor(ts: seq<TaskId>, tasks: set<TaskId>, a: ApprovalId): seq<(TaskId, ApprovalId)> {
    if ts == [] then [] else (if ts[0] in tasks then [(ts[0], a)] else []) + RowsFor(ts[1..], tasks, a)
  }

  // The rows of the linked and of the legacy query, for approvals in the order of creation.
  function ConflictRows(s: Store, board: BoardId, tasks: set<TaskId>, exclude: Option<ApprovalId>,
                        order: seq<ApprovalId>, legacy: bool): seq<(TaskId, ApprovalId)>
  {
    if order == [] then []
    else
      var a := order[0];
      (if PendingOther(s, board, exclude, a) && (Linked(s.links, a) == []) == legacy
       then RowsFor(Effective(s, a), tasks, a) else [])
      + ConflictRows(s, board, tasks, exclude, order[1..], legacy)
  }

  lemma {:induction false} RowsForHas(ts: seq<TaskId>, tasks: set<TaskId>, a: ApprovalId, row: (TaskId, ApprovalId))
    ensures row in RowsFor(ts, tasks, a) <==> row.0 in ts && row.0 in tasks && row.1 == a
  {
    if ts != [] {
      RowsForHas(ts[1..], tasks, a, row);
      assert ts == [ts[0]] + ts[1..];
    }
  }

  lemma {:induction false} ConflictRowsHave(s: Store, board: BoardId, tasks: set<TaskId>, exclude: Option<ApprovalId>,
                                            order: seq<ApprovalId>, legacy: bool, row: (TaskId, ApprovalId))
    ensures row in ConflictRows(s, board, tasks, exclude, order, legacy) <==>
              && row.1 in order && PendingOther(s, board, exclude, row.1) && (Linked(s.links, row.1) == []) == legacy
              && row.0 in Effective(s, row.1) && row.0 in tasks
  {
    if order != [] {
      ConflictRowsHave(s, board, tasks, exclude, order[1..], legacy, row);
      assert order == [order[0]] + order[1..];
      if order[0] in s.approvals {
        RowsForHas(Effective(s, order[0]), tasks, order[0], row);
      }
    }
  }

  // The first row of a task gives its conflict.
  ghost predicate FirstRow(rows: seq<(TaskId, ApprovalId)>, t: TaskId, a: ApprovalId) {
    exists j :: 0 <= j < |rows| && rows[j] == (t, a) && forall k :: 0 <= k < j ==> rows[k].0 != t
  }

  // Conflicts are empty exactly when no requested task has another pending approval, and
  // name such an approval otherwise: the first linked one, or else the first legacy one.
  method PendingConflicts(s: Store, board: BoardId, tasks: seq<TaskId>, exclude: Option<ApprovalId>,
                          order: seq<ApprovalId>)
    returns (conflicts: map<TaskId, ApprovalId>)
    requires SetOf(order) == s.approvals.Keys
    ensures forall t: TaskId :: t in conflicts <==>
              t in tasks && exists a: ApprovalId :: exclude != Some(a) && PendingFor(s, board, a, t)
    ensures forall t: TaskId :: t in conflicts ==>
              && exclude != Some(conflicts[t]) && PendingFor(s, board, conflicts[t], t)
              && FirstRow(ConflictRows(s, board, SetOf(tasks), exclude, order, false)
                          + ConflictRows(s, board, SetOf(tasks), exclude, order, true), t, conflicts[t])
  {
    hide ConflictRows, Linked, PendingFor;
    conflicts := map[];
    if tasks == [] {
      return;
    }
    var linkedRows := ConflictRows(s, board, SetOf(tasks), exclude, order, false);
    var legacyRows := ConflictRows(s, board, SetOf(tasks), exclude, order, true);
    var rows := linkedRows + legacyRows;
    for i := 0 to |rows|
      invariant forall t: TaskId :: t in conflicts ==> FirstRow(rows, t, conflicts[t]) && (t, conflicts[t]) in rows
      invariant forall k :: 0 <= k < i ==> rows[k].0 in conflicts
    {
      var (task, approval) := rows[i];
      if task !in conflicts {
        conflicts := conflicts[task := approval];
      }
    }
    forall t: TaskId, a: ApprovalId
      ensures (t, a) in rows <==> t in tasks && exclude != Some(a) && PendingFor(s, board, a, t)
    {
      RowMeaning(s, board, tasks, exclude, order, t, a);
    }
  }

  lemma {:induction false} RowMeaning(s: Store, board: BoardId, tasks: seq<TaskId>, exclude: Option<ApprovalId>,
                                      order: seq<ApprovalId>, t: TaskId, a: ApprovalId)
    requires SetOf(order) == s.approvals.Keys
    ensures (t, a) in ConflictRows(s, board, SetOf(tasks), exclude, order, false)
                      + ConflictRows(s, board, SetOf(tasks), exclude, order, true)
            <==> t in tasks && exclude != Some(a) && PendingFor(s, board, a, t)
  {
    hide ConflictRows, Linked;
    ConflictRowsHave(s, board, SetOf(tasks), exclude, order, false, (t, a));
    ConflictRowsHave(s, board, SetOf(tasks), exclude, order, true, (t, a));
    assert a in order <==> a in SetOf(order);
  }

  // ---------- counts ----------

  function LinkedSet(s: Store, board: BoardId, t: TaskId): (r: set<ApprovalId>)
    ensures r <= s.approvals.Keys
  {
    set a | a in s.approvals && s.approvals[a].board == board && Link(a, t) in s.links
  }

  function LegacySet(s: Store, board: BoardId, t: TaskId): (r: set<ApprovalId>)
    ensures r <= s.approvals.Keys
  {
    set a | a in s.approvals && s.approvals[a].board == board && Linked(s.links, a) == [] && s.approvals[a].task == Some(t)
  }

  function PendingOf(s: Store, ids: set<ApprovalId>): set<ApprovalId>
    requires ids <= s.approvals.Keys
  {
    set a | a in ids && s.approvals[a].status == Pending
  }

  // The approvals of a board that are about a task.
  function ApprovalsAbout(s: Store, board: BoardId, t: TaskId): (r: set<ApprovalId>)
    ensures r <= s.approvals.Keys
  {
    set a | a in s.approvals && s.approvals[a].board == board && t in Effective(s, a)
  }

  // Linked and legacy rows split the approvals about a task, so the two counts add up.
  lemma CountsAddUp(s: Store, board: BoardId, t: TaskId)
    ensures ApprovalsAbout(s, board, t) == LinkedSet(s, board, t) + LegacySet(s, board, t)
    ensures |ApprovalsAbout(s, board, t)| == |LinkedSet(s, board, t)| + |LegacySet(s, board, t)|
    ensures |PendingOf(s, ApprovalsAbout(s, board, t))|
            == |PendingOf(s, LinkedSet(s, board, t))| + |PendingOf(s, LegacySet(s, board, t))|
  {
    var linked, legacy := LinkedSet(s, board, t), LegacySet(s, board, t);
    forall a | a in s.approvals
      ensures t in Effective(s, a) <==> Link(a, t) in s.links || (Linked(s.links, a) == [] && s.approvals[a].task == Some(t))
      ensures Link(a, t) in s.links ==> Linked(s.links, a) != []
    {
      LinkedHas(s.links, a, t);
    }
    assert ApprovalsAbout(s, board, t) == linked + legacy;
    assert linked !! legacy;
    assert PendingOf(s, linked + legacy) == PendingOf(s, linked) + PendingOf(s, legacy);
  }

  function RequestedTask(requested: Option<set<TaskId>>, t: TaskId): bool {
    requested.Some? ==> t in requested.value
  }

  // The groups of the linked and of the legacy count.
  function LinkKeys(s: Store, board: BoardId, requested: Option<set<TaskId>>): set<TaskId> {
    set l | l in s.links && l.approval in s.approvals && s.approvals[l.approval].board == board
            && RequestedTask(requested, l.task) :: l.task
  }

  function LegacyKeys(s: Store, board: BoardId, requested: Option<set<TaskId>>): set<TaskId> {
    set a | a in s.approvals && s.approvals[a].board == board && s.approvals[a].task.Some?
            && Linked(s.links, a) == [] && RequestedTask(requested, s.approvals[a].task.value)
          :: s.approvals[a].task.value
  }

  lemma KeysMeaning(s: Store, board: BoardId, requested: Option<set<TaskId>>, t: TaskId)
    ensures t in LinkKeys(s, board, requested) <==> RequestedTask(requested, t) && LinkedSet(s, board, t) != {}
    ensures t in LegacyKeys(s, board, requested) <==> RequestedTask(requested, t) && LegacySet(s, board, t) != {}
  {
    hide Linked;
    if t in LinkKeys(s, board, requested) {
      var l :| l in s.links && l.approval in s.approvals && s.approvals[l.approval].board == board && l.task == t;
      assert l == Link(l.approval, t) && l.approval in LinkedSet(s, board, t);
    }
    if LinkedSet(s, board, t) != {} {
      var a :| a in LinkedSet(s, board, t);
      assert Link(a, t) in s.links;
    }
    if t in LegacyKeys(s, board, requested) {
      var a :| a in s.approvals && s.approvals[a].board == board && s.approvals[a].task == Some(t) && Linked(s.links, a) == [];
      assert a in LegacySet(s, board, t);
    }
    if LegacySet(s, board, t) != {} {
      var a :| a in LegacySet(s, board, t);
      assert s.approvals[a].task.value == t;
    }
  }

  function Counted(s: Store, ids: set<ApprovalId>): (nat, nat)
    requires ids <= s.approvals.Keys
  {
    (|ids|, |PendingOf(s, ids)|)
  }

  lemma NothingCounted(s: Store)
    ensures Counted(s, {}) == (0, 0)
  {
    assert PendingOf(s, {}) == {};
  }

  // Total and pending approvals of every task that has any, among the requested tasks.
  method TaskCounts(s: Store, board: BoardId, requested: Option<set<TaskId>>)
    returns (counts: map<TaskId, (nat, nat)>)
    ensures forall t: TaskId :: t in counts <==>
              RequestedTask(requested, t) && ApprovalsAbout(s, board, t) != {}
    ensures forall t: TaskId :: t in counts ==> counts[t] == Counted(s, ApprovalsAbout(s, board, t))
  {
    hide Linked, LinkKeys, LegacyKeys, LinkedSet, LegacySet, Counted, ApprovalsAbout;
    counts := map[];
    if requested == Some({}) {
      return;
    }
    var linkKeys, legacyKeys := LinkKeys(s, board, requested), LegacyKeys(s, board, requested);
    var todo := linkKeys;
    while todo != {}
      invariant todo <= linkKeys && counts.Keys == linkKeys - todo
      invariant forall t :: t in counts ==> counts[t] == Counted(s, LinkedSet(s, board, t))
      decreases todo
    {
      var t :| t in todo;
      counts := counts[t := Counted(s, LinkedSet(s, board, t))];
      todo := todo - {t};
    }
    todo := legacyKeys;
    while todo != {}
      invariant todo <= legacyKeys && counts.Keys == linkKeys + (legacyKeys - todo)
      invariant forall t :: t in counts ==>
                  counts[t] == Counted(s, if t in legacyKeys - todo then ApprovalsAbout(s, board, t)
                                          else LinkedSet(s, board, t))
      decreases todo
    {
      var t :| t in todo;
      var total, pending := |LegacySet(s, board, t)|, |PendingOf(s, LegacySet(s, board, t))|;
      var previous := if t in counts then counts[t] else (0, 0);
      PreviousAndLegacy(s, board, requested, t, previous);
      counts := counts[t := (previous.0 + total, previous.1 + pending)];
      todo := todo - {t};
    }
    forall t: TaskId
      ensures t in counts <==> RequestedTask(requested, t) && ApprovalsAbout(s, board, t) != {}
      ensures t !in legacyKeys && t in counts ==> ApprovalsAbout(s, board, t) == LinkedSet(s, board, t)
    {
      KeysMeaning(s, board, requested, t);
      CountsAddUp(s, board, t);
    }
  }

  lemma PreviousAndLegacy(s: Store, board: BoardId, requested: Option<set<TaskId>>, t: TaskId, previous: (nat, nat))
    requires t in LegacyKeys(s, board, requested)
    requires previous == if t in LinkKeys(s, board, requested) then Counted(s, LinkedSet(s, board, t)) else (0, 0)
    ensures (previous.0 + |LegacySet(s, board, t)|, previous.1 + |PendingOf(s, LegacySet(s, board, t))|)
            == Counted(s, ApprovalsAbout(s, board, t))
  {
    hide Linked, LinkKeys, LegacyKeys, LinkedSet, LegacySet, PendingOf, ApprovalsAbout;
    KeysMeaning(s, board, requested, t);
    CountsAddUp(s, board, t);
    NothingCounted(s);
  }

  // A task has a conflict exactly when its pending count is positive.
  lemma ConflictIffPendingCount(s: Store, board: BoardId, t: TaskId)
    ensures (exists a: ApprovalId :: PendingFor(s, board, a, t)) <==> Counted(s, ApprovalsAbout(s, board, t)).1 > 0
  {
    var pending := PendingOf(s, ApprovalsAbout(s, board, t));
    if a: ApprovalId :| PendingFor(s, board, a, t) {
      assert a in pending;
    }
    if |pending| > 0 {
      var a :| a in pending;
      assert PendingFor(s, board, a, t);
    }
  }

  // ---------- the approved-approval check ----------

  // The done gate reads the task column and the links side by side.
  predicate ApprovedLinked(s: Store, board: BoardId, t: TaskId) {
    exists a :: a in s.approvals && s.approvals[a].board == board && s.approvals[a].status == Approved
                && (s.approvals[a].task == Some(t) || Link(a, t) in s.links)
  }

  lemma ApprovedLinkedMeaning(s: Store, board: BoardId, t: TaskId)
    requires Aligned(s)
    ensures ApprovedLinked(s, board, t) <==>
              exists a :: a in s.approvals && s.approvals[a].board == board && s.approvals[a].status == Approved
                          && t in Effective(s, a)
  {
    forall a | a in s.approvals
      ensures t in Effective(s, a) <==> s.approvals[a].task == Some(t) || Link(a, t) in s.links
    {
      LinkedHas(s.links, a, t);
    }
  }

  predicate ApprovedOn(s: Store, board: BoardId, a: ApprovalId) {
    a in s.approvals && s.approvals[a].board == board && s.approvals[a].status == Approved
  }

  // An approval whose column names a task that its links leave out.
  predicate Astray(s: Store, a: ApprovalId, t: TaskId) {
    a in s.approvals && s.approvals[a].task == Some(t) && Linked(s.links, a) != [] && t !in Linked(s.links, a)
  }

  // In any tables, aligned or not: the check never misses an approval about the task, and it
  // answers for one that is not about it exactly when the column of an approved approval has
  // gone astray and no other will do.
  lemma ApprovedLinkedDiffersIff(s: Store, board: BoardId, t: TaskId)
    ensures (exists a :: ApprovedOn(s, board, a) && t in Effective(s, a)) ==> ApprovedLinked(s, board, t)
    ensures ApprovedLinked(s, board, t) && !(exists a :: ApprovedOn(s, board, a) && t in Effective(s, a))
            <==> (exists a :: ApprovedOn(s, board, a) && Astray(s, a, t))
                 && !(exists a :: ApprovedOn(s, board, a) && t in Effective(s, a))
  {
    forall a | a in s.approvals
      ensures s.approvals[a].task == Some(t) || Link(a, t) in s.links <==> t in Effective(s, a) || Astray(s, a, t)
    {
      LinkedHas(s.links, a, t);
    }
  }

  // ---------- writers ----------

  // Explicit task ids first, then the single id, then those found in the payload.
  function NormalizedTaskIds(task: Option<TaskId>, tasks: seq<TaskId>, extracted: seq<TaskId>): seq<TaskId> {
    Deduped(tasks + (if task.Some? then [task.value] else []) + extracted)
  }

  method NormalizeTaskIds(task: Option<TaskId>, tasks: seq<TaskId>, extracted: seq<TaskId>) returns (ids: seq<TaskId>)
    ensures ids == NormalizedTaskIds(task, tasks, extracted)
    ensures Distinct(ids) && SetOf(ids) == SetOf(tasks) + SetOf(extracted) + (if task.Some? then {task.value} else {})
  {
    var merged := tasks;
    if task.Some? {
      merged := merged + [task.value];
    }
    merged := merged + extracted;
    assert merged == tasks + (if task.Some? then [task.value] else []) + extracted;
    ids := Dedupe(merged);
    DedupedMeaning(merged);
  }

  function LinksOf(a: ApprovalId, ts: seq<TaskId>): seq<Link> {
    seq(|ts|, i requires 0 <= i < |ts| => Link(a, ts[i]))
  }

  function Kept(links: seq<Link>, keep: Link -> bool): seq<Link> {
    if links == [] then [] else (if keep(links[0]) then [links[0]] else []) + Kept(links[1..], keep)
  }

  lemma {:induction false} KeptHas(links: seq<Link>, keep: Link -> bool, l: Link)
    ensures l in Kept(links, keep) <==> l in links && keep(l)
  {
    if links != [] {
      KeptHas(links[1..], keep, l);
      assert links == [links[0]] + links[1..];
    }
  }

  lemma {:induction false} LinkedOfLinks(a: ApprovalId, ts: seq<TaskId>, b: ApprovalId)
    ensures Linked(LinksOf(a, ts), b) == if a == b then ts else []
  {
    if ts != [] {
      LinkedOfLinks(a, ts[1..], b);
      assert LinksOf(a, ts)[1..] == LinksOf(a, ts[1..]);
    }
  }

  function ReplacedLinks(links: seq<Link>, a: ApprovalId, ts: seq<TaskId>): seq<Link> {
    Kept(links, (l: Link) => l.approval != a) + LinksOf(a, ts)
  }

  method ReplaceApprovalTaskLinks(s: Store, a: ApprovalId, ts: seq<TaskId>) returns (out: Store)
    ensures out == s.(links := ReplacedLinks(s.links, a, ts))
  {
    var links := Kept(s.links, (l: Link) => l.approval != a);
    ghost var kept := links;
    for i := 0 to |ts|
      invariant links == kept + LinksOf(a, ts[..i])
    {
      links := links + [Link(a, ts[i])];
      assert LinksOf(a, ts[..i + 1]) == LinksOf(a, ts[..i]) + [Link(a, ts[i])];
    }
    assert ts[..|ts|] == ts;
    out := s.(links := links);
  }

  lemma {:induction false} LinkedAfterReplace(links: seq<Link>, a: ApprovalId, ts: seq<TaskId>, b: ApprovalId)
    ensures Linked(ReplacedLinks(links, a, ts), b) == if a == b then ts else Linked(links, b)
  {
    var kept := Kept(links, (l: Link) => l.approval != a);
    LinkedConcat(kept, LinksOf(a, ts), b);
    LinkedOfLinks(a, ts, b);
    LinkedKept(links, a, b);
  }

  lemma {:induction false} LinkedKept(links: seq<Link>, a: ApprovalId, b: ApprovalId)
    ensures Linked(Kept(links, (l: Link) => l.approval != a), b) == if a == b then [] else Linked(links, b)
  {
    if links != [] {
      var keep := (l: Link) => l.approval != a;
      LinkedKept(links[1..], a, b);
      LinkedConcat(if keep(links[0]) then [links[0]] else [], Kept(links[1..], keep), b);
    }
  }

  // A committed create: the task column holds the first id and there is a link for each.
  function WithApproval(s: Store, a: ApprovalId, board: BoardId, ts: seq<TaskId>, status: ApprovalStatus): Store {
    Store(s.approvals[a := Approval(board, if ts == [] then None else Some(ts[0]), status)],
          ReplacedLinks(s.links, a, ts))
  }

  lemma {:induction false} CreateEffect(s: Store, a: ApprovalId, board: BoardId, ts: seq<TaskId>,
                                        status: ApprovalStatus)
    requires a !in s.approvals
    ensures var after := WithApproval(s, a, board, ts, status);
            && Effective(after, a) == ts && Linked(after.links, a) == ts
            && after.approvals[a] == Approval(board, if ts == [] then None else Some(ts[0]), status)
            && after.approvals.Keys == s.approvals.Keys + {a}
            && (forall b: ApprovalId :: b != a ==> Linked(after.links, b) == Linked(s.links, b))
            && (Aligned(s) ==> Aligned(after))
            && (forall b :: b in s.approvals ==> after.approvals[b] == s.approvals[b] && Effective(after, b) == Effective(s, b))
  {
    var after := WithApproval(s, a, board, ts, status);
    forall b: ApprovalId
      ensures Linked(after.links, b) == if a == b then ts else Linked(s.links, b)
    {
      LinkedAfterReplace(s.links, a, ts, b);
    }
    hide Linked, ReplacedLinks;
  }

  // Every approval and link names what exists, as the foreign keys demand.
  ghost predicate RefsExist(s: Store, tasks: set<TaskId>) {
    && (forall l :: l in s.links ==> l.approval in s.approvals && l.task in tasks)
    && (forall a :: a in s.approvals && s.approvals[a].task.Some? ==> s.approvals[a].task.value in tasks)
  }

  lemma {:induction false} CreateKeepsRefs(s: Store, tasks: set<TaskId>, a: ApprovalId, board: BoardId, ts: seq<TaskId>,
                                           status: ApprovalStatus)
    requires RefsExist(s, tasks) && SetOf(ts) <= tasks
    ensures RefsExist(WithApproval(s, a, board, ts, status), tasks)
  {
    var after := WithApproval(s, a, board, ts, status);
    forall l | l in after.links
      ensures l.approval in after.approvals && l.task in tasks
    {
      KeptHas(s.links, (x: Link) => x.approval != a, l);
      if l in LinksOf(a, ts) {
        assert l.task in SetOf(ts);
      }
    }
    if ts != [] {
      assert ts[0] in SetOf(ts);
    }
  }

  // ---------- deleting a task ----------

  function RemainingLinks(s: Store, t: TaskId): seq<Link> {
    Kept(s.links, (l: Link) => l.task != t)
  }

  // Links to the task go; an approval whose column named it moves on to its first
  // remaining link, or goes too when there is none.
  function WithoutTask(s: Store, t: TaskId): Store {
    var links := RemainingLinks(s, t);
    Store(map a | a in s.approvals && !(s.approvals[a].task == Some(t) && Linked(links, a) == [])
            :: MovedOn(s.approvals[a], t, Linked(links, a)),
          links)
  }

  function MovedOn(approval: Approval, t: TaskId, remaining: seq<TaskId>): Approval {
    if approval.task == Some(t) && remaining != [] then approval.(task := Some(remaining[0])) else approval
  }

  method DeleteTaskRows(s: Store, t: TaskId) returns (out: Store)
    ensures out == WithoutTask(s, t)
  {
    hide Linked, Kept;
    var primary := set a | a in s.approvals && s.approvals[a].task == Some(t);
    var links := RemainingLinks(s, t);
    var approvals := s.approvals;
    var todo := primary;
    while todo != {}
      invariant todo <= primary
      invariant approvals == map a | a in s.approvals && !(a in primary - todo && Linked(links, a) == [])
                               :: if a in primary - todo then MovedOn(s.approvals[a], t, Linked(links, a)) else s.approvals[a]
      decreases todo
    {
      var a :| a in todo;
      var remaining := Linked(links, a);
      todo := todo - {a};
      if remaining != [] {
        approvals := approvals[a := approvals[a].(task := Some(remaining[0]))];
        continue;
      }
      approvals := approvals - {a};
    }
    out := Store(approvals, links);
    assert approvals == WithoutTask(s, t).approvals;
  }

  lemma WithoutStep(x: TaskId, ts: seq<TaskId>, t: TaskId)
    ensures Without([x] + ts, t) == (if x != t then [x] else []) + Without(ts, t)
  {
    assert ([x] + ts)[1..] == ts;
  }

  lemma {:induction false} WithoutConcat(xs: seq<TaskId>, ys: seq<TaskId>, t: TaskId)
    ensures Without(xs + ys, t) == Without(xs, t) + Without(ys, t)
  {
    if xs == [] {
      assert xs + ys == ys;
    } else {
      hide Without;
      var first, rest := xs[0], xs[1..];
      assert xs == [first] + rest && xs + ys == [first] + (rest + ys);
      WithoutConcat(rest, ys, t);
      WithoutStep(first, rest, t);
      WithoutStep(first, rest + ys, t);
    }
  }

  lemma {:induction false} LinkedRemaining(links: seq<Link>, t: TaskId, a: ApprovalId)
    ensures Linked(Kept(links, (l: Link) => l.task != t), a) == Without(Linked(links, a), t)
  {
    if links != [] {
      var keep := (l: Link) => l.task != t;
      LinkedRemaining(links[1..], t, a);
      LinkedConcat(if keep(links[0]) then [links[0]] else [], Kept(links[1..], keep), a);
      WithoutConcat(if links[0].approval == a then [links[0].task] else [], Linked(links[1..], a), t);
    }
  }

  // A surviving approval is about exactly the tasks it was about before, less the deleted
  // one; an approval goes exactly when its column named the task and it was about nothing else.
  lemma {:induction false} DeleteEffect(s: Store, t: TaskId, a: ApprovalId)
    requires Aligned(s) && a in s.approvals
    ensures a !in WithoutTask(s, t).approvals <==>
              s.approvals[a].task == Some(t) && Without(Effective(s, a), t) == []
    ensures a in WithoutTask(s, t).approvals ==>
              && WithoutTask(s, t).approvals[a].board == s.approvals[a].board
              && WithoutTask(s, t).approvals[a].status == s.approvals[a].status
              && Effective(WithoutTask(s, t), a) == Without(Effective(s, a), t)
              && WithoutTask(s, t).approvals[a].task ==
                   if s.approvals[a].task == Some(t) then Some(Without(Effective(s, a), t)[0]) else s.approvals[a].task
  {
    LinkedRemaining(s.links, t, a);
    var linked := Linked(s.links, a);
    var task := s.approvals[a].task;
    if linked == [] && task.Some? {
      assert Without([task.value], t) == if task.value != t then [task.value] else [] by {
        assert Without([], t) == [];
      }
    }
    if task.Some? && linked != [] {
      WithoutHas(linked, t, task.value);
    }
    hide Linked, Kept, Without;
  }

  lemma {:induction false} DeleteKeepsAligned(s: Store, t: TaskId)
    requires Aligned(s)
    ensures Aligned(WithoutTask(s, t))
  {
    var after := WithoutTask(s, t);
    forall a | a in after.approvals
      ensures var task, linked := after.approvals[a].task, Linked(after.links, a);
              task.None? || linked == [] || task.value in linked
    {
      LinkedRemaining(s.links, t, a);
      if s.approvals[a].task.Some? {
        WithoutHas(Linked(s.links, a), t, s.approvals[a].task.value);
      }
      hide Linked, Kept, Without;
    }
  }

  lemma {:induction false} DeleteKeepsRefs(s: Store, tasks: set<TaskId>, t: TaskId)
    requires RefsExist(s, tasks) && Aligned(s)
    ensures RefsExist(WithoutTask(s, t), tasks - {t})
  {
    var after := WithoutTask(s, t);
    forall l | l in after.links
      ensures l.approval in after.approvals && l.task in tasks - {t}
    {
      KeptHas(s.links, (x: Link) => x.task != t, l);
      LinkedHas(after.links, l.approval, l.task);
      assert l.approval in s.approvals;
    }
    forall a | a in after.approvals && after.approvals[a].task.Some?
      ensures after.approvals[a].task.value in tasks - {t}
    {
      var linked := Linked(after.links, a);
      if s.approvals[a].task == Some(t) {
        LinkedHas(after.links, a, linked[0]);
        KeptHas(s.links, (x: Link) => x.task != t, Link(a, linked[0]));
      }
    }
  }

  // After a deletion no reader finds the task, and every other task keeps its approvals.
  lemma {:induction false} DeletedTaskIsForgotten(s: Store, board: BoardId, t: TaskId, u: TaskId)
    requires Aligned(s)
    ensures ApprovalsAbout(WithoutTask(s, t), board, u) == if u == t then {} else ApprovalsAbout(s, board, u)
  {
    var after := WithoutTask(s, t);
    forall a | a in s.approvals
      ensures a in ApprovalsAbout(after, board, u) <==> u != t && a in ApprovalsAbout(s, board, u)
    {
      DeleteEffect(s, t, a);
      WithoutHas(Effective(s, a), t, u);
      hide Linked, Kept, Without, Effective, WithoutTask;
    }
    assert after.approvals.Keys <= s.approvals.Keys;
  }
}
