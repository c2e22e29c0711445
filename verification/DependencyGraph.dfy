/**
 The dependency graph of a board and the check that keeps it free of cycles.
 */
module DependencyGraph {
  import opened Prelude
  import opened Dedup

  type TaskId = nat
  type Edges = map<TaskId, set<TaskId>>

  function Next(edges: Edges, n: TaskId): set<TaskId> {
    if n in edges then edges[n] else {}
  }

  ghost predicate IsPath(edges: Edges, p: seq<TaskId>) {
    p != [] && forall k :: 0 <= k < |p| - 1 ==> p[k + 1] in Next(edges, p[k])
  }

  ghost predicate Repeats(p: seq<TaskId>) {
    exists j, k :: 0 <= j < k < |p| && p[j] == p[k]
  }

  // Some path from one of the nodes comes back to where it has been.
  ghost predicate Cyclic(nodes: set<TaskId>, edges: Edges) {
    exists p :: IsPath(edges, p) && p[0] in nodes && Repeats(p)
  }

  ghost predicate Acyclic(edges: Edges) {
    forall p :: IsPath(edges, p) ==> !Repeats(p)
  }

  // Nodes in the order in which their search finished: edges lead to earlier ones.
  ghost predicate Finished(edges: Edges, order: seq<TaskId>) {
    forall k :: 0 <= k < |order| ==> Next(edges, order[k]) <= SetOf(order[..k])
  }

  // A path that starts inside such an order runs backwards through it.
  lemma {:induction false} PathDescends(edges: Edges, order: seq<TaskId>, p: seq<TaskId>, k: nat) returns (at: nat)
    requires Finished(edges, order) && Distinct(order) && IsPath(edges, p) && k < |order| && p[0] == order[k]
    ensures at <= k && order[at] == p[|p| - 1] && (|p| > 1 ==> at < k)
    decreases |p|
  {
    if |p| == 1 {
      at := k;
    } else {
      assert p[0 + 1] in Next(edges, p[0]);
      assert p[1] in SetOf(order[..k]);
      var m :| 0 <= m < k && order[m] == p[1];
      at := PathDescends(edges, order, p[1..], m);
    }
  }

  lemma {:induction false} FinishedMeansNoRepeat(edges: Edges, order: seq<TaskId>, p: seq<TaskId>)
    requires Finished(edges, order) && Distinct(order) && IsPath(edges, p) && p[0] in order
    ensures !Repeats(p)
    decreases |p|
  {
    var start :| 0 <= start < |order| && order[start] == p[0];
    forall j, k | 0 <= j < k < |p|
      ensures p[j] != p[k]
    {
      var first := PathDescends(edges, order, p[..j + 1], start);
      assert p[j..k + 1][0] == p[j] && IsPath(edges, p[j..k + 1]);
      var second := PathDescends(edges, order, p[j..k + 1], first);
      assert p[k] == order[second] && p[j] == order[first];
    }
  }

  // The state of a search: the current path, and what has been left for good.
  ghost predicate SearchOk(edges: Edges, visited: set<TaskId>, inStack: set<TaskId>, stack: seq<TaskId>,
                           order: seq<TaskId>) {
    && inStack == SetOf(stack) && (stack != [] ==> IsPath(edges, stack))
    && Finished(edges, order) && Distinct(order)
    && visited == inStack + SetOf(order) && inStack !! SetOf(order)
  }

  lemma PathExtended(edges: Edges, stack: seq<TaskId>, current: TaskId)
    requires stack != [] ==> IsPath(edges, stack) && current in Next(edges, stack[|stack| - 1])
    ensures IsPath(edges, stack + [current]) && SetOf(stack + [current]) == SetOf(stack) + {current}
    ensures current in stack ==> Repeats(stack + [current])
  {
    var path := stack + [current];
    if current in stack {
      var j :| 0 <= j < |stack| && stack[j] == current;
      assert path[j] == path[|stack|];
    }
  }

  lemma Entered(edges: Edges, visited: set<TaskId>, inStack: set<TaskId>, stack: seq<TaskId>, order: seq<TaskId>,
                current: TaskId)
    requires SearchOk(edges, visited, inStack, stack, order)
    requires stack != [] ==> current in Next(edges, stack[|stack| - 1])
    ensures IsPath(edges, stack + [current])
    ensures current in inStack ==> Repeats(stack + [current])
    ensures current in visited && current !in inStack ==> current in order
    ensures current !in visited ==> SearchOk(edges, visited + {current}, inStack + {current}, stack + [current], order)
  {
    PathExtended(edges, stack, current);
    hide IsPath, Repeats, Finished, Distinct;
  }

  lemma Left(edges: Edges, visited: set<TaskId>, inStack: set<TaskId>, stack: seq<TaskId>, order: seq<TaskId>,
             current: TaskId)
    requires SearchOk(edges, visited, inStack, stack + [current], order) && current !in stack
    requires Next(edges, current) <= SetOf(order)
    ensures SearchOk(edges, visited, inStack - {current}, stack, order + [current])
    ensures inStack - {current} == SetOf(stack)
  {
    var path := stack + [current];
    assert SetOf(path) == SetOf(stack) + {current} by {
      assert path[|stack|] == current;
    }
    assert IsPath(edges, stack) || stack == [] by {
      assert forall k :: 0 <= k < |stack| ==> path[k] == stack[k];
    }
    assert current !in order by {
      assert current in inStack;
    }
    Extends(edges, order, current);
    hide IsPath, Repeats, Finished, Distinct;
  }

  lemma PrefixHolds(short: seq<TaskId>, long: seq<TaskId>)
    requires short <= long
    ensures SetOf(short) <= SetOf(long)
  {
    forall n | n in short
      ensures n in long
    {
      var k :| 0 <= k < |short| && short[k] == n;
      assert long[k] == n;
    }
  }

  lemma NotOnPath(edges: Edges, visited: set<TaskId>, inStack: set<TaskId>, stack: seq<TaskId>, order: seq<TaskId>,
                  current: TaskId)
    requires SearchOk(edges, visited, inStack, stack, order) && current !in visited
    ensures current !in stack
  {
    hide IsPath, Finished, Distinct;
    assert current !in SetOf(stack);
  }

  lemma Extends(edges: Edges, order: seq<TaskId>, current: TaskId)
    requires Finished(edges, order) && Distinct(order) && current !in order && Next(edges, current) <= SetOf(order)
    ensures Finished(edges, order + [current]) && Distinct(order + [current])
    ensures SetOf(order + [current]) == SetOf(order) + {current}
  {
    var longer := order + [current];
    forall k | 0 <= k < |longer|
      ensures Next(edges, longer[k]) <= SetOf(longer[..k])
    {
      if k < |order| {
        assert longer[..k] == order[..k];
      } else {
        assert longer[..k] == order;
      }
    }
  }

  lemma Shrinks(universe: set<TaskId>, visited: set<TaskId>, before: set<TaskId>, current: TaskId)
    requires before + {current} <= visited <= universe && current !in before
    ensures |universe - visited| < |universe - before|
  {
    assert universe - visited <= (universe - before) - {current};
    SubsetSmaller(universe - visited, (universe - before) - {current});
  }

  /** Depth-first search that reports a node met again on the current path. */
  class CycleFinder {
    const edges: Edges
    var visited: set<TaskId>
    var inStack: set<TaskId>
    ghost var stack: seq<TaskId>
    ghost var order: seq<TaskId>

    constructor (edges: Edges)
      ensures this.edges == edges && Valid() && visited == {} && stack == []
    {
      this.edges := edges;
      visited, inStack, stack, order := {}, {}, [], [];
    }

    ghost predicate Valid()
      reads this
    {
      SearchOk(edges, visited, inStack, stack, order)
    }

    method Dfs(current: TaskId, ghost universe: set<TaskId>) returns (found: bool)
      requires Valid() && visited <= universe && current in universe
      requires forall n :: n in universe ==> Next(edges, n) <= universe
      requires stack != [] ==> current in Next(edges, stack[|stack| - 1])
      modifies this
      ensures found ==> exists p :: IsPath(edges, p) && p[0] == (old(stack) + [current])[0] && Repeats(p)
      ensures !found ==> Valid() && stack == old(stack) && current in order && old(order) <= order
      ensures !found ==> visited <= universe && old(visited) <= visited
      decreases |universe - visited|
    {
      hide SearchOk, IsPath, Repeats, Next;
      Entered(edges, visited, inStack, stack, order, current);
      if current in inStack {
        return true;
      }
      if current in visited {
        return false;
      }
      ghost var before, path := visited, stack + [current];
      visited := visited + {current};
      inStack := inStack + {current};
      stack := path;
      var todo := Next(edges, current);
      while todo != {}
        invariant todo <= Next(edges, current)
        invariant Valid() && stack == path && old(order) <= order
        invariant before + {current} <= visited <= universe
        invariant Next(edges, current) - todo <= SetOf(order)
        decreases todo
      {
        var next :| next in todo;
        Shrinks(universe, visited, before, current);
        ghost var known := order;
        found := Dfs(next, universe);
        if found {
          return;
        }
        PrefixHolds(known, order);
        todo := todo - {next};
      }
      NotOnPath(edges, before, old(inStack), old(stack), old(order), current);
      Left(edges, visited, inStack, old(stack), order, current);
      inStack := inStack - {current};
      stack := old(stack);
      order := order + [current];
      return false;
    }
  }

  // The nodes a search can meet.
  ghost function Universe(nodes: set<TaskId>, edges: Edges): set<TaskId> {
    nodes + set n, m | n in edges && m in edges[n] :: m
  }

  // The search finds a cycle exactly when one can be reached from the nodes.
  method HasCycle(nodes: set<TaskId>, edges: Edges) returns (found: bool)
    ensures found <==> Cyclic(nodes, edges)
  {
    var search := new CycleFinder(edges);
    ghost var universe := Universe(nodes, edges);
    var todo := nodes;
    while todo != {}
      invariant todo <= nodes && search.edges == edges
      invariant search.Valid() && search.stack == [] && search.visited <= universe
      invariant nodes - todo <= SetOf(search.order)
      decreases todo
    {
      var node :| node in todo;
      ghost var known := search.order;
      found := search.Dfs(node, universe);
      if found {
        return;
      }
      PrefixHolds(known, search.order);
      todo := todo - {node};
    }
    forall p | IsPath(edges, p) && p[0] in nodes
      ensures !Repeats(p)
    {
      assert p[0] in SetOf(search.order);
      FinishedMeansNoRepeat(edges, search.order, p);
    }
    found := false;
  }

  // ---------- editing the dependencies of a task ----------

  // The dependency rows of a board, per task and in order of insertion.
  type Deps = map<TaskId, seq<TaskId>>

  function DepIds(deps: Deps, t: TaskId): seq<TaskId> {
    if t in deps then deps[t] else []
  }

  function EdgesOf(deps: Deps): Edges {
    map t | t in deps :: SetOf(deps[t])
  }

  // A new dependency list is refused when it names the task itself, a task not on the
  // board, or closes a cycle; otherwise it is stored without its duplicates.
  ghost function Validated(tasks: set<TaskId>, deps: Deps, t: TaskId, ids: seq<TaskId>): Response<seq<TaskId>> {
    var normalized := Deduped(ids);
    if t in normalized then Refused(UNPROCESSABLE)
    else if normalized == [] then Ok([])
    else if !(SetOf(normalized) <= tasks) then Refused(NOT_FOUND)
    else if Cyclic(tasks, EdgesOf(deps)[t := SetOf(normalized)]) then Refused(CONFLICT)
    else Ok(normalized)
  }

  method ValidateDependencyUpdate(tasks: set<TaskId>, deps: Deps, t: TaskId, ids: seq<TaskId>)
    returns (r: Response<seq<TaskId>>)
    ensures r == Validated(tasks, deps, t, ids)
  {
    var normalized := Dedupe(ids);
    if t in normalized {
      return Refused(UNPROCESSABLE);
    }
    if normalized == [] {
      return Ok([]);
    }
    var missing := [];
    for i := 0 to |normalized|
      invariant missing == [] <==> forall k :: 0 <= k < i ==> normalized[k] in tasks
    {
      if normalized[i] !in tasks {
        missing := missing + [normalized[i]];
      }
    }
    if missing != [] {
      return Refused(NOT_FOUND);
    }
    var edges := EdgesOf(deps)[t := SetOf(normalized)];
    var cyclic := HasCycle(tasks, edges);
    r := if cyclic then Refused(CONFLICT) else Ok(normalized);
  }

  lemma {:induction false} FewerEdges(small: Edges, big: Edges)
    requires Acyclic(big) && forall n :: n in small ==> Next(small, n) <= Next(big, n)
    ensures Acyclic(small)
  {
    forall p | IsPath(small, p)
      ensures !Repeats(p)
    {
      assert IsPath(big, p);
    }
  }

  // An accepted edit leaves the graph free of cycles and inside the board.
  lemma {:induction false} EditKeepsAcyclic(tasks: set<TaskId>, deps: Deps, t: TaskId, ids: seq<TaskId>)
    requires Acyclic(EdgesOf(deps)) && deps.Keys <= tasks && t in tasks
    requires Validated(tasks, deps, t, ids).Ok?
    ensures var stored := Validated(tasks, deps, t, ids).value;
            && Acyclic(EdgesOf(deps[t := stored]))
            && SetOf(stored) == SetOf(ids) && SetOf(stored) <= tasks && Distinct(stored) && t !in stored
  {
    DedupedMeaning(ids);
    var stored := Validated(tasks, deps, t, ids).value;
    var edges := EdgesOf(deps[t := stored]);
    assert edges == EdgesOf(deps)[t := SetOf(stored)];
    if stored == [] {
      FewerEdges(edges, EdgesOf(deps));
    } else {
      forall p | IsPath(edges, p)
        ensures !Repeats(p)
      {
        if |p| > 1 {
          assert p[0 + 1] in Next(edges, p[0]);
          assert p[0] in tasks;
        }
      }
    }
  }

  lemma {:induction false} RemovalKeepsAcyclic(deps: Deps, t: TaskId)
    requires Acyclic(EdgesOf(deps))
    ensures Acyclic(EdgesOf(WithoutTask(deps, t)))
  {
    forall n | n in WithoutTask(deps, t)
      ensures Next(EdgesOf(WithoutTask(deps, t)), n) <= Next(EdgesOf(deps), n)
    {
      WithoutMeaning(deps[n], t);
    }
    FewerEdges(EdgesOf(WithoutTask(deps, t)), EdgesOf(deps));
  }

  // A deleted task leaves with its own rows and with the rows that depend on it.
  function WithoutTask(deps: Deps, t: TaskId): Deps {
    map n | n in deps && n != t :: Without(deps[n], t)
  }

  lemma WithoutMeaning(ids: seq<TaskId>, t: TaskId)
    ensures SetOf(Without(ids, t)) == SetOf(ids) - {t}
  {
    forall n: TaskId
      ensures n in Without(ids, t) <==> n in ids && n != t
    {
      WithoutHas(ids, t, n);
    }
  }

  // ---------- when an edit closes a cycle ----------

  ghost predicate Reaches(edges: Edges, a: TaskId, b: TaskId) {
    exists p :: IsPath(edges, p) && p[0] == a && p[|p| - 1] == b
  }

  // In a graph free of cycles, an edit is refused as cyclic exactly when one of the new
  // dependencies already leads, directly or through others, to the task itself.
  lemma {:induction false} CyclicIffReachesBack(tasks: set<TaskId>, edges: Edges, t: TaskId, ids: set<TaskId>)
    requires Acyclic(edges) && edges.Keys <= tasks && t in tasks && t !in ids
    ensures Cyclic(tasks, edges[t := ids]) <==> exists d :: d in ids && Reaches(edges, d, t)
  {
    var after := edges[t := ids];
    if p :| IsPath(after, p) && p[0] in tasks && Repeats(p) {
      CycleReachesBack(edges, t, ids, p);
    }
    if d :| d in ids && Reaches(edges, d, t) {
      var p :| IsPath(edges, p) && p[0] == d && p[|p| - 1] == t;
      var q := FirstVisit(edges, after, t, p);
      var cycle := [t] + q;
      assert cycle[0] == cycle[|q|];
      assert IsPath(after, cycle);
    }
  }

  // Up to its first visit to the edited task a path is one in both graphs.
  lemma {:induction false} FirstVisit(from: Edges, to: Edges, t: TaskId, p: seq<TaskId>) returns (q: seq<TaskId>)
    requires IsPath(from, p) && t in p && forall n :: n != t ==> Next(from, n) == Next(to, n)
    ensures IsPath(to, q) && q[0] == p[0] && q[|q| - 1] == t
    decreases |p|
  {
    if p[0] == t {
      q := [t];
    } else {
      assert p == [p[0]] + p[1..];
      var rest := p[1..];
      assert p[0 + 1] in Next(from, p[0]);
      q := FirstVisit(from, to, t, rest);
      q := [p[0]] + q;
    }
  }

  lemma {:induction false} CycleReachesBack(edges: Edges, t: TaskId, ids: set<TaskId>, p: seq<TaskId>)
    requires Acyclic(edges) && IsPath(edges[t := ids], p) && Repeats(p)
    ensures exists d :: d in ids && Reaches(edges, d, t)
  {
    var after := edges[t := ids];
    var j, k :| 0 <= j < k < |p| && p[j] == p[k];
    var m := EditedStep(edges, t, ids, p, j, k);
    // From the new dependency on round the cycle, and so back to the edited task.
    var on, back := p[m + 1..k + 1], p[j..m + 1];
    assert IsPath(after, on) && IsPath(after, back) && back[|back| - 1] == t;
    assert on[|on| - 1] == p[k] && back[0] == p[j];
    PathsJoin(after, on, back);
    var q := FirstVisit(after, edges, t, on + back[1..]);
    assert on[0] in Next(after, t) && Reaches(edges, on[0], t);
  }

  // A path that comes back to where it was must use an edge that the edit added.
  lemma {:induction false} EditedStep(edges: Edges, t: TaskId, ids: set<TaskId>, p: seq<TaskId>, j: nat,
                                      k: nat) returns (m: nat)
    requires Acyclic(edges) && IsPath(edges[t := ids], p) && j < k < |p| && p[j] == p[k]
    ensures j <= m < k && p[m] == t && p[m + 1] in ids
  {
    hide Acyclic;
    var n := BrokenStep(edges, p[j..k + 1]);
    m := j + n;
    assert p[j..k + 1][n] == p[m] && p[j..k + 1][n + 1] == p[m + 1];
    assert p[m + 1] in Next(edges[t := ids], p[m]);
  }

  lemma {:induction false} BrokenStep(edges: Edges, round: seq<TaskId>) returns (n: nat)
    requires Acyclic(edges) && |round| > 1 && round[0] == round[|round| - 1]
    ensures n < |round| - 1 && round[n + 1] !in Next(edges, round[n])
  {
    assert Repeats(round);
    n :| 0 <= n < |round| - 1 && round[n + 1] !in Next(edges, round[n]);
  }

  lemma {:induction false} PathsJoin(edges: Edges, a: seq<TaskId>, b: seq<TaskId>)
    requires IsPath(edges, a) && IsPath(edges, b) && a[|a| - 1] == b[0]
    ensures IsPath(edges, a + b[1..]) && b[|b| - 1] in a + b[1..]
  {
    var p := a + b[1..];
    forall i | 0 <= i < |p| - 1
      ensures p[i + 1] in Next(edges, p[i])
    {
      if i >= |a| - 1 {
        assert p[i] == b[i - (|a| - 1)] && p[i + 1] == b[i + 1 - (|a| - 1)];
      }
    }
    assert p[|p| - 1] == b[|b| - 1];
  }

  // ---------- work can always go on ----------

  lemma {:induction false} LongPath(edges: Edges, open: set<TaskId>, start: TaskId,
                                    length: nat) returns (p: seq<TaskId>)
    requires start in open && forall n :: n in open ==> Next(edges, n) * open != {}
    ensures IsPath(edges, p) && |p| == length + 1 && SetOf(p) <= open && p[0] == start
    decreases length
  {
    if length == 0 {
      p := [start];
    } else {
      var next :| next in Next(edges, start) * open;
      p := LongPath(edges, open, next, length - 1);
      p := [start] + p;
    }
  }

  lemma {:induction false} NoRepeatFits(p: seq<TaskId>, open: set<TaskId>)
    requires !Repeats(p) && SetOf(p) <= open
    ensures |p| <= |open|
  {
    if p != [] {
      var init, last := p[..|p| - 1], p[|p| - 1];
      assert last !in init;
      assert last in SetOf(p);
      NoRepeatFits(init, open - {last});
    }
  }

  // Without cycles, unfinished tasks never all wait on each other: among any of them is one
  // whose dependencies are all outside.
  lemma {:induction false} SomeTaskIsUnblocked(edges: Edges, open: set<TaskId>) returns (t: TaskId)
    requires Acyclic(edges) && open != {}
    ensures t in open && Next(edges, t) * open == {}
  {
    t :| t in open;
    if n :| n in open && Next(edges, n) * open == {} {
      t := n;
    } else {
      var p := LongPath(edges, open, t, |open|);
      NoRepeatFits(p, open);
    }
  }
}
