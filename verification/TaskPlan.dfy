/** Task-plan graph validation: a depth-first search over two mutable sets, followed by
    the status rule on the dependency graph. */
module TaskPlan {

  datatype Status = Pending | InProgress | Completed | Blocked | Cancelled

  datatype Id = Id(name: string)

  datatype Task = Task(id: Id, status: Status, dependsOn: seq<Id>)

  datatype Verdict = Accepted | DuplicateIds | UnknownDependency | Cyclic | IncompleteDependency

  type Graph = map<Id, seq<Id>>

  // ---------- What a plan must satisfy, said without the search ----------

  ghost predicate Closed(g: Graph) {
    forall x, y :: x in g && y in g[x] ==> y in g
  }

  /** Consecutive elements of `p` are dependency edges. */
  ghost predicate Walk(g: Graph, p: seq<Id>) {
    forall i :: 0 <= i < |p| - 1 ==> p[i] in g && p[i + 1] in g[p[i]]
  }

  ghost predicate WalkBetween(g: Graph, p: seq<Id>, a: Id, b: Id) {
    2 <= |p| && p[0] == a && p[|p| - 1] == b && Walk(g, p)
  }

  /** `b` is a direct or transitive dependency of `a`. */
  ghost predicate Reaches(g: Graph, a: Id, b: Id) {
    exists p :: WalkBetween(g, p, a, b)
  }

  ghost predicate Acyclic(g: Graph) {
    forall x :: x in g ==> !Reaches(g, x, x)
  }

  ghost predicate UniqueIds(tasks: seq<Task>) {
    forall i, j :: 0 <= i < j < |tasks| ==> tasks[i].id != tasks[j].id
  }

  ghost predicate KnownDependencies(tasks: seq<Task>) {
    var ids := set t | t in tasks :: t.id;
    forall t, d :: t in tasks && d in t.dependsOn ==> d in ids
  }

  predicate Active(s: Status) { s.InProgress? || s.Completed? }

  /** An in-progress or completed task depends on completed ones only. */
  ghost predicate TaskRule(tasks: seq<Task>, t: Task) {
    Active(t.status) ==> forall u :: u in tasks && u.id in t.dependsOn ==> u.status.Completed?
  }

  ghost predicate StatusRuleUpTo(tasks: seq<Task>, n: nat)
    requires n <= |tasks|
  {
    forall i :: 0 <= i < n ==> TaskRule(tasks, tasks[i])
  }

  ghost predicate StatusRule(tasks: seq<Task>) { StatusRuleUpTo(tasks, |tasks|) }

  ghost predicate ValidPlan(tasks: seq<Task>) {
    UniqueIds(tasks) && KnownDependencies(tasks) && Acyclic(Dependencies(tasks)) && StatusRule(tasks)
  }

  // ---------- The dictionaries the validator builds ----------

  function ById(tasks: seq<Task>): (m: map<Id, Task>)
    ensures forall t :: t in tasks ==> t.id in m
    ensures forall x :: x in m ==> m[x] in tasks && m[x].id == x
  {
    if tasks == [] then map[]
    else
      var last := tasks[|tasks| - 1];
      ById(tasks[..|tasks| - 1])[last.id := last]
  }

  function Dependencies(tasks: seq<Task>): (g: Graph) {
    var m := ById(tasks);
    map x | x in m :: m[x].dependsOn
  }

  lemma ByIdUnique(tasks: seq<Task>, t: Task)
    requires UniqueIds(tasks) && t in tasks
    ensures ById(tasks)[t.id] == t
  {
    var u := ById(tasks)[t.id];
    var i :| 0 <= i < |tasks| && tasks[i] == t;
    var j :| 0 <= j < |tasks| && tasks[j] == u;
    assert i == j;
  }

  lemma DependencyIsListed(tasks: seq<Task>, t: Task, d: Id)
    requires KnownDependencies(tasks) && t in tasks && d in t.dependsOn
    ensures d in ById(tasks)
  {
    var ids := set u | u in tasks :: u.id;
    assert d in ids;
    var u :| u in tasks && u.id == d;
  }

  // ---------- The search ----------

  lemma WalkStaysInside(g: Graph, inside: set<Id>, p: seq<Id>, k: nat)
    requires Walk(g, p) && k < |p| && p[0] in inside
    requires forall x, y :: x in inside && x in g && y in g[x] ==> y in inside
    ensures p[k] in inside
  {
    if k > 0 { WalkStaysInside(g, inside, p, k - 1); }
  }

  /** A node outside a closed set whose dependencies all lie inside it is on no cycle. */
  lemma NoCycleThrough(g: Graph, inside: set<Id>, id: Id)
    requires id in g && id !in inside
    requires forall x, y :: x in inside && x in g && y in g[x] ==> y in inside
    requires forall y :: y in g[id] ==> y in inside
    ensures !Reaches(g, id, id)
  {
    forall p | WalkBetween(g, p, id, id)
      ensures false
    {
      assert p[0 + 1] in g[p[0]];
      WalkStaysInside(g, inside, p[1..], |p| - 2);
    }
  }

  lemma CycleFromWalk(g: Graph, p: seq<Id>, id: Id)
    requires Walk(g, p) && id in p && id in g && p[|p| - 1] in g && id in g[p[|p| - 1]]
    ensures !Acyclic(g)
  {
    var k :| 0 <= k < |p| && p[k] == id;
    assert WalkBetween(g, p[k..] + [id], id, id);
  }

  /** The finished part of the search: closed under dependencies and free of cycles. */
  ghost predicate Settled(g: Graph, visited: set<Id>) {
    && visited <= g.Keys
    && (forall x, y :: x in visited && y in g[x] ==> y in visited)
    && (forall x :: x in visited ==> !Reaches(g, x, x))
  }

  lemma SettleOne(g: Graph, visited: set<Id>, id: Id)
    requires Settled(g, visited) && id in g && id !in visited && forall y :: y in g[id] ==> y in visited
    ensures Settled(g, visited + {id})
  {
    NoCycleThrough(g, visited, id);
  }

  /** The open calls, outermost first, form a walk through each of the identifiers being visited once. */
  ghost predicate Open(g: Graph, stack: seq<Id>, visiting: set<Id>) {
    && visiting <= g.Keys && Walk(g, stack) && (forall x :: x in visiting <==> x in stack)
    && |stack| == |visiting| && forall i, j :: 0 <= i < j < |stack| ==> stack[i] != stack[j]
  }

  lemma OpenOne(g: Graph, stack: seq<Id>, visiting: set<Id>, id: Id)
    requires Open(g, stack, visiting) && id in g && (stack != [] ==> stack[|stack| - 1] in g && id in g[stack[|stack| - 1]])
    ensures id !in visiting ==> Open(g, stack + [id], visiting + {id})
    ensures |visiting| <= |g.Keys| && |visiting + {id}| <= |g.Keys|
  {
    SubsetSize(visiting, g.Keys);
    SubsetSize(visiting + {id}, g.Keys);
  }

  /** The last task of the walk depends on one of the walk. */
  ghost predicate Loops(g: Graph, path: seq<Id>) {
    path != [] && path[|path| - 1] in g && exists x :: x in path && x in g[path[|path| - 1]]
  }

  /** Where a search that found a cycle stopped: the open calls loop, and `depth`, counted from the outermost, is that of
      the call that found it unless a finished branch went as deep. */
  ghost predicate Stopped(g: Graph, stack: seq<Id>, visiting: set<Id>, depth: nat) {
    && Open(g, stack, visiting) && Loops(g, stack)
    && |stack| + 1 <= depth && (depth <= |g.Keys| || depth == |stack| + 1)
  }

  class Search {
    const g: Graph
    var visiting: set<Id>
    var visited: set<Id>
    ghost var stack: seq<Id>

    ghost predicate Valid()
      reads this
    {
      Closed(g) && Settled(g, visited) && Open(g, stack, visiting) && visiting !! visited
    }

    constructor (g: Graph)
      requires Closed(g)
      ensures Valid() && this.g == g && visiting == {} && visited == {} && stack == []
    {
      this.g := g;
      visiting, visited, stack := {}, {}, [];
    }

    /** One recursive visit. `height` is the number of nested calls it opened, itself included. */
    method Visit(id: Id) returns (ok: bool, height: nat)
      requires Valid() && id in g
      requires stack != [] ==> id in g[stack[|stack| - 1]]
      modifies this
      ensures ok ==> Valid() && visiting == old(visiting) && stack == old(stack)
      ensures ok ==> old(visited) <= visited && id in visited && |old(visiting)| + height <= |g.Keys|
      ensures !ok ==> !Acyclic(g) && Stopped(g, stack, visiting, |old(visiting)| + height)
      decreases g.Keys - visiting, 0
    {
      OpenOne(g, stack, visiting, id);
      if id in visiting {
        CycleFromWalk(g, stack, id);
        return false, 1;
      }
      if id in visited { return true, 1; }
      visiting, stack := visiting + {id}, stack + [id];
      ok, height := VisitAll(id);
      if ok { Leave(id, old(visiting), old(stack)); }
      height := height + 1;
    }

    /** Close the innermost call: everything below the task is settled, so the task is. */
    method Leave(id: Id, ghost before: set<Id>, ghost outer: seq<Id>)
      requires Closed(g) && Settled(g, visited) && Open(g, outer, before) && visiting == before + {id}
      requires id !in before && visiting !! visited && id in g && forall y :: y in g[id] ==> y in visited
      modifies this
      ensures Valid() && visiting == before && stack == outer && visited == old(visited) + {id}
    {
      SettleOne(g, visited, id);
      CloseOne(before, visited, id);
      visiting, visited, stack := visiting - {id}, visited + {id}, outer;
    }

    /** The loop over one task's dependencies, run while that task is the innermost open call. */
    method VisitAll(id: Id) returns (ok: bool, height: nat)
      requires Valid() && stack != [] && stack[|stack| - 1] == id && id in g
      modifies this
      ensures ok ==> Valid() && visiting == old(visiting) && stack == old(stack)
      ensures ok ==> old(visited) <= visited && forall y :: y in g[id] ==> y in visited
      ensures ok ==> |old(visiting)| + height <= |g.Keys|
      ensures !ok ==> !Acyclic(g) && Stopped(g, stack, visiting, |old(visiting)| + height)
      decreases g.Keys - visiting, 1
    {
      SubsetSize(visiting, g.Keys);
      height := 0;
      for i := 0 to |g[id]|
        invariant Valid() && visiting == old(visiting) && stack == old(stack) && old(visited) <= visited
        invariant forall j :: 0 <= j < i ==> g[id][j] in visited
        invariant |old(visiting)| + height <= |g.Keys|
      {
        var child, below := Visit(g[id][i]);
        height := if below > height then below else height;
        if !child { return false, height; }
      }
      return true, height;
    }
  }

  lemma CloseOne(visiting: set<Id>, visited: set<Id>, id: Id)
    requires id !in visiting && visiting + {id} !! visited
    ensures visiting + {id} - {id} == visiting && visiting !! visited + {id}
  {
  }

  lemma SubsetSize(small: set<Id>, big: set<Id>)
    requires small <= big
    ensures |small| <= |big|
  {
    assert big == small + (big - small);
  }

  // ---------- The validator ----------

  method Unique(tasks: seq<Task>) returns (ok: bool)
    ensures ok <==> UniqueIds(tasks)
  {
    var seen: set<Id> := {};
    for i := 0 to |tasks|
      invariant forall x :: x in seen <==> exists k :: 0 <= k < i && tasks[k].id == x
      invariant UniqueIds(tasks[..i])
    {
      if tasks[i].id in seen { return false; }
      seen := seen + {tasks[i].id};
    }
    assert tasks[..|tasks|] == tasks;
    return true;
  }

  /** `depth` is the deepest recursion used: an acyclic plan never needs more calls than it has tasks. A cycle is found
      at the end of `path`, a walk through distinct tasks that loops, and takes one call more than there are tasks
      exactly when that walk goes through all of them. */
  method FindCycle(tasks: seq<Task>) returns (cyclic: bool, depth: nat, ghost path: seq<Id>)
    requires KnownDependencies(tasks)
    ensures cyclic <==> !Acyclic(Dependencies(tasks))
    ensures var g := Dependencies(tasks);
            if !cyclic then depth <= |g.Keys|
            else
              && Walk(g, path) && Loops(g, path) && (forall i, j :: 0 <= i < j < |path| ==> path[i] != path[j])
              && |path| + 1 <= depth <= |g.Keys| + 1 && (depth == |g.Keys| + 1 <==> |path| == |g.Keys|)
  {
    depth, path := 0, [];
    var g := Dependencies(tasks);
    forall x, y | x in g && y in g[x] ensures y in g { DependencyIsListed(tasks, ById(tasks)[x], y); }
    var search := new Search(g);
    for i := 0 to |tasks|
      invariant search.Valid() && search.g == g && search.visiting == {} && search.stack == [] && fresh(search)
      invariant forall j :: 0 <= j < i ==> tasks[j].id in search.visited
      invariant depth <= |g.Keys|
    {
      var ok, height := search.Visit(tasks[i].id);
      depth := if height > depth then height else depth;
      if !ok {
        SubsetSize(search.visiting, g.Keys);
        return true, depth, search.stack;
      }
    }
    return false, depth, [];
  }

  /** Two tasks that depend on each other: the search needs a third call. */
  method MutualDependency(a: Id, b: Id) returns (cyclic: bool, depth: nat)
    requires a != b
    ensures cyclic && depth == 3
  {
    var tasks := [Task(a, Pending, [b]), Task(b, Pending, [a])];
    ghost var g := map[a := [b], b := [a]];
    MutualGraph(a, b);
    assert tasks[0] in tasks && tasks[1] in tasks;
    ghost var path;
    cyclic, depth, path := FindCycle(tasks);
    assert WalkBetween(g, [a, b, a], a, a);
    MutualWalk(a, b, path);
    assert |g.Keys| == |{a, b}|;
  }

  lemma MutualGraph(a: Id, b: Id)
    requires a != b
    ensures var tasks := [Task(a, Pending, [b]), Task(b, Pending, [a])];
            Dependencies(tasks) == map[a := [b], b := [a]] && KnownDependencies(tasks)
  {
    var tasks := [Task(a, Pending, [b]), Task(b, Pending, [a])];
    assert tasks[..1] == [tasks[0]] && tasks[..1][..0] == [];
    assert ById(tasks) == map[a := tasks[0], b := tasks[1]];
    assert tasks[0] in tasks && tasks[1] in tasks;
  }

  lemma MutualWalk(a: Id, b: Id, path: seq<Id>)
    requires a != b && Walk(map[a := [b], b := [a]], path) && Loops(map[a := [b], b := [a]], path)
    requires forall i, j :: 0 <= i < j < |path| ==> path[i] != path[j]
    ensures |path| >= 2
  {
    var x :| x in path && x in map[a := [b], b := [a]][path[|path| - 1]];
  }

  predicate Incomplete(byId: map<Id, Task>, t: Task)
    requires forall d :: d in t.dependsOn ==> d in byId
  {
    Active(t.status) && exists d :: d in t.dependsOn && !byId[d].status.Completed?
  }

  lemma IncompleteBreaksRule(tasks: seq<Task>, t: Task)
    requires UniqueIds(tasks) && KnownDependencies(tasks) && t in tasks
    ensures forall d :: d in t.dependsOn ==> d in ById(tasks)
    ensures Incomplete(ById(tasks), t) <==> !TaskRule(tasks, t)
  {
    var byId := ById(tasks);
    forall d | d in t.dependsOn ensures d in byId { DependencyIsListed(tasks, t, d); }
    forall u | u in tasks ensures byId[u.id] == u { ByIdUnique(tasks, u); }
    if Incomplete(byId, t) {
      var d :| d in t.dependsOn && !byId[d].status.Completed?;
      assert byId[d] in tasks && byId[d].id in t.dependsOn;
    }
  }

  method StatusesConsistent(tasks: seq<Task>) returns (ok: bool)
    requires UniqueIds(tasks) && KnownDependencies(tasks)
    ensures ok <==> StatusRule(tasks)
  {
    var byId := ById(tasks);
    for i := 0 to |tasks|
      invariant StatusRuleUpTo(tasks, i)
    {
      CheckNext(tasks, i);
      if Incomplete(byId, tasks[i]) { return false; }
    }
    return true;
  }

  lemma CheckNext(tasks: seq<Task>, i: nat)
    requires UniqueIds(tasks) && KnownDependencies(tasks) && i < |tasks| && StatusRuleUpTo(tasks, i)
    ensures forall d :: d in tasks[i].dependsOn ==> d in ById(tasks)
    ensures if Incomplete(ById(tasks), tasks[i]) then !StatusRule(tasks) else StatusRuleUpTo(tasks, i + 1)
  {
    IncompleteBreaksRule(tasks, tasks[i]);
  }

  method Validate(tasks: seq<Task>) returns (v: Verdict)
    ensures v.Accepted? <==> ValidPlan(tasks)
    ensures v.DuplicateIds? <==> !UniqueIds(tasks)
    ensures v.UnknownDependency? <==> UniqueIds(tasks) && !KnownDependencies(tasks)
    ensures v.Cyclic? <==> UniqueIds(tasks) && KnownDependencies(tasks) && !Acyclic(Dependencies(tasks))
  {
    var unique := Unique(tasks);
    if !unique { return DuplicateIds; }
    var ids := set t | t in tasks :: t.id;
    var known := forall t :: t in tasks ==> forall d :: d in t.dependsOn ==> d in ids;
    if !known { return UnknownDependency; }
    var cyclic, _, _ := FindCycle(tasks);
    if cyclic { return Cyclic; }
    var consistent := StatusesConsistent(tasks);
    return if consistent then Accepted else IncompleteDependency;
  }

  // ---------- What acceptance promises ----------

  function CompletedIds(tasks: seq<Task>): (done: set<Id>) {
    var m := ById(tasks);
    set x | x in m && m[x].status.Completed?
  }

  lemma ActiveDependency(tasks: seq<Task>, x: Id, y: Id)
    requires KnownDependencies(tasks) && StatusRule(tasks)
    requires x in ById(tasks) && Active(ById(tasks)[x].status) && y in ById(tasks)[x].dependsOn
    ensures y in CompletedIds(tasks)
  {
    DependencyIsListed(tasks, ById(tasks)[x], y);
    var i :| 0 <= i < |tasks| && tasks[i] == ById(tasks)[x];
    assert TaskRule(tasks, tasks[i]);
    assert ById(tasks)[y].id in ById(tasks)[x].dependsOn;
  }

  /** Nothing outside `done` is a dependency of something inside it. */
  ghost predicate ClosedUnder(g: Graph, done: set<Id>) {
    forall x, y :: x in done && x in g && y in g[x] ==> y in done
  }

  lemma CompletedIsClosed(tasks: seq<Task>)
    requires KnownDependencies(tasks) && StatusRule(tasks)
    ensures ClosedUnder(Dependencies(tasks), CompletedIds(tasks))
  {
    var g, done := Dependencies(tasks), CompletedIds(tasks);
    forall x, y | x in done && x in g && y in g[x] ensures y in done { ActiveDependency(tasks, x, y); }
  }

  lemma WalkIntoClosed(g: Graph, done: set<Id>, p: seq<Id>)
    requires ClosedUnder(g, done) && |p| >= 2 && Walk(g, p) && p[1] in done
    ensures p[|p| - 1] in done
  {
    WalkStaysInside(g, done, p[1..], |p| - 2);
  }

  /** Everything an in-progress or completed task depends on, however indirectly, is completed. */
  lemma TransitiveDependenciesCompleted(tasks: seq<Task>, t: Task, below: Id)
    requires UniqueIds(tasks) && KnownDependencies(tasks) && StatusRule(tasks)
    requires t in tasks && Active(t.status) && Reaches(Dependencies(tasks), t.id, below)
    ensures below in CompletedIds(tasks)
  {
    var g := Dependencies(tasks);
    ByIdUnique(tasks, t);
    CompletedIsClosed(tasks);
    var p :| WalkBetween(g, p, t.id, below);
    assert p[0 + 1] in g[p[0]];
    ActiveDependency(tasks, t.id, p[1]);
    WalkIntoClosed(g, CompletedIds(tasks), p);
  }

  ghost predicate Ready(g: Graph, done: set<Id>, x: Id) {
    x in g && x !in done && forall d :: d in g[x] ==> d in done
  }

  /** Follow unfinished dependencies; acyclicity makes every step new, so the walk must end. */
  lemma {:induction false} Descend(g: Graph, done: set<Id>, p: seq<Id>)
    requires Acyclic(g) && Closed(g) && p != [] && Walk(g, p)
    requires forall x :: x in p ==> x in g && x !in done
    ensures exists x :: Ready(g, done, x)
    decreases g.Keys - (set x | x in p)
  {
    var last := p[|p| - 1];
    if !Ready(g, done, last) {
      var d :| d in g[last] && d !in done;
      if d in p { CycleFromWalk(g, p, d); }
      assert (set x | x in p + [d]) == (set x | x in p) + {d};
      Descend(g, done, p + [d]);
    }
  }

  /** An accepted plan never deadlocks: unfinished work leaves some unfinished task whose dependencies are done. */
  lemma SomeTaskIsReady(tasks: seq<Task>, t: Task)
    requires ValidPlan(tasks) && t in tasks && !t.status.Completed?
    ensures exists x :: Ready(Dependencies(tasks), CompletedIds(tasks), x)
  {
    var g := Dependencies(tasks);
    ByIdUnique(tasks, t);
    forall x, y | x in g && y in g[x] ensures y in g { DependencyIsListed(tasks, ById(tasks)[x], y); }
    Descend(g, CompletedIds(tasks), [t.id]);
  }
}
