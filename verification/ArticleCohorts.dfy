// Connected components of the article-match graph
// (crates/livrarr-db/src/pool.rs:927-1006): a pairwise adjacency scan and a
// depth-first search with an explicit stack and a `visited` set.
module ArticleCohorts {
  import opened Basics

  type Graph = seq<set<nat>>

  predicate Edge(g: Graph, i: nat, j: nat) {
    i < |g| && j in g[i]
  }

  ghost predicate ValidGraph(g: Graph) {
    forall i, j :: Edge(g, i, j) ==> i != j && Edge(g, j, i)
  }

  ghost predicate IsPath(g: Graph, p: seq<nat>) {
    && p != []
    && (forall i :: 0 <= i < |p| ==> p[i] < |g|)
    && forall i :: 0 <= i < |p| - 1 ==> Edge(g, p[i], p[i + 1])
  }

  ghost predicate Joins(g: Graph, p: seq<nat>, a: nat, b: nat) {
    IsPath(g, p) && p[0] == a && p[|p| - 1] == b
  }

  ghost predicate Connected(g: Graph, a: nat, b: nat) {
    exists p :: Joins(g, p, a, b)
  }

  ghost predicate Closed(g: Graph, s: set<nat>) {
    forall i, j :: i in s && Edge(g, i, j) ==> j in s
  }

  // A symmetric test of two works, here with the smaller index first, as the
  // scan calls it.
  type Match = (nat, nat) -> bool

  function AddEdge(g: Graph, left: nat, right: nat): (g': Graph)
    requires left < |g| && right < |g| && left != right
    ensures |g'| == |g|
    ensures forall i, j :: Edge(g', i, j) <==> Edge(g, i, j) || (i == left && j == right) || (i == right && j == left)
    ensures ValidGraph(g) ==> ValidGraph(g')
  {
    g[left := g[left] + {right}][right := g[right] + {left}]
  }

  method BuildAdjacency(n: nat, matches: Match) returns (g: Graph)
    ensures |g| == n && ValidGraph(g)
    ensures forall i, j :: 0 <= i < j < n ==> (Edge(g, i, j) <==> matches(i, j))
  {
    g := seq(n, i => {});
    for left := 0 to n
      invariant |g| == n && ValidGraph(g)
      invariant forall i, j :: 0 <= i < j < n ==> (Edge(g, i, j) <==> i < left && matches(i, j))
    {
      for right := left + 1 to n
        invariant |g| == n && ValidGraph(g)
        invariant forall i, j :: 0 <= i < j < n ==>
                    (Edge(g, i, j) <==> (i < left || (i == left && j < right)) && matches(i, j))
      {
        if matches(left, right) {
          g := AddEdge(g, left, right);
        }
      }
    }
  }

  lemma {:induction false} PathStays(g: Graph, s: set<nat>, p: seq<nat>)
    requires Closed(g, s) && IsPath(g, p) && p[0] in s
    ensures p[|p| - 1] in s
  {
    if |p| > 1 {
      assert Edge(g, p[0], p[1]);
      assert IsPath(g, p[1..]) by {
        forall i | 0 <= i < |p[1..]| - 1 ensures Edge(g, p[1..][i], p[1..][i + 1]) {
          assert Edge(g, p[i + 1], p[i + 2]);
        }
      }
      PathStays(g, s, p[1..]);
    }
  }

  lemma ConnectedStaysIn(g: Graph, s: set<nat>, a: nat, b: nat)
    requires Closed(g, s) && a in s && Connected(g, a, b)
    ensures b in s
  {
    var p :| Joins(g, p, a, b);
    PathStays(g, s, p);
  }

  lemma ConnectedStep(g: Graph, a: nat, b: nat, c: nat)
    requires ValidGraph(g) && Connected(g, a, b) && Edge(g, b, c)
    ensures Connected(g, a, c)
  {
    var p :| Joins(g, p, a, b);
    assert Edge(g, c, b);
    assert Joins(g, p + [c], a, c);
  }

  lemma ConnectedSelf(g: Graph, a: nat)
    requires a < |g|
    ensures Connected(g, a, a)
  {
    assert Joins(g, [a], a, a);
  }

  lemma ConnectedSymmetric(g: Graph, a: nat, b: nat)
    requires ValidGraph(g) && Connected(g, a, b)
    ensures Connected(g, b, a)
  {
    var p :| Joins(g, p, a, b);
    var q := seq(|p|, i requires 0 <= i < |p| => p[|p| - 1 - i]);
    forall i | 0 <= i < |q| - 1 ensures Edge(g, q[i], q[i + 1]) {
      var k := |p| - 2 - i;
      assert Edge(g, p[k], p[k + 1]);
    }
    assert Joins(g, q, b, a);
  }

  lemma ConnectedTransitive(g: Graph, a: nat, b: nat, c: nat)
    requires Connected(g, a, b) && Connected(g, b, c)
    ensures Connected(g, a, c)
  {
    var p :| Joins(g, p, a, b);
    var q :| Joins(g, q, b, c);
    var r := p + q[1..];
    forall i | 0 <= i < |r| - 1 ensures Edge(g, r[i], r[i + 1]) {
      if i >= |p| - 1 {
        assert r[i] == q[i - |p| + 1] && r[i + 1] == q[i - |p| + 2];
      }
    }
    assert Joins(g, r, a, c);
  }

  ghost function Elements(s: seq<nat>): set<nat> {
    set x | x in s
  }

  ghost predicate Distinct(s: seq<nat>) {
    forall i, j :: 0 <= i < j < |s| ==> s[i] != s[j]
  }

  // The component found so far and the stack share no node with each other or
  // with the components found before.
  ghost predicate Apart(visited: set<nat>, component: seq<nat>, stack: seq<nat>) {
    && Distinct(component) && Distinct(stack)
    && Elements(component) !! Elements(stack)
    && Elements(component) + Elements(stack) !! visited
  }

  ghost predicate Reached(g: Graph, start: nat, component: seq<nat>, stack: seq<nat>) {
    && (forall j :: j in component ==> j < |g| && Connected(g, start, j))
    && (forall j :: j in stack ==> j < |g| && Connected(g, start, j))
  }

  // What the search keeps while the stack still holds nodes to expand.
  ghost predicate Searching(
      g: Graph, start: nat, visited: set<nat>, component: seq<nat>, stack: seq<nat>, seen: set<nat>)
  {
    && seen == visited + Elements(component) + Elements(stack)
    && Apart(visited, component, stack) && Reached(g, start, component, stack)
    && (start in component || start in stack)
    && Scanned(g, component, seen)
  }

  // The inner loops: everything reachable from `start`, once.
  method Explore(g: Graph, start: nat, visited: set<nat>) returns (component: seq<nat>, visited': set<nat>)
    requires ValidGraph(g) && start < |g|
    requires Closed(g, visited) && start !in visited
    ensures Distinct(component) && Elements(component) !! visited
    ensures visited' == visited + Elements(component) && Closed(g, visited')
    ensures forall j :: j in component <==> Connected(g, start, j)
  {
    visited' := visited + {start};
    var stack: seq<nat> := [start];
    component := [];
    SearchStarts(g, start, visited);
    while stack != []
      invariant Searching(g, start, visited, component, stack, visited')
      decreases |g| - |Elements(component)|
    {
      component, stack, visited' := Expand(g, start, component, stack, visited, visited');
    }
    assert stack == [];
    SearchEnds(g, start, visited, component, visited');
  }

  // One turn of `while let Some(index) = stack.pop()`.
  method Expand(
      g: Graph, ghost start: nat, component: seq<nat>, stack: seq<nat>, ghost visited: set<nat>, seen: set<nat>)
    returns (component': seq<nat>, stack': seq<nat>, seen': set<nat>)
    requires ValidGraph(g) && stack != []
    requires Searching(g, start, visited, component, stack, seen)
    ensures Searching(g, start, visited, component', stack', seen')
    ensures |Elements(component)| < |Elements(component')| <= |g|
  {
    var rest, index := Pop(stack);
    TurnStarts(g, start, visited, component, rest, index, seen);
    component' := component + [index];
    stack', seen' := PushUnvisited(g, start, index, component', rest, visited, seen);
    TurnEnds(g, start, visited, component, rest, index, seen, stack', seen');
  }

  lemma TurnStarts(
      g: Graph, start: nat, visited: set<nat>, component: seq<nat>, rest: seq<nat>, index: nat, seen: set<nat>)
    requires Searching(g, start, visited, component, rest + [index], seen)
    ensures index < |g| && Connected(g, start, index)
    ensures Apart(visited, component + [index], rest) && Reached(g, start, component + [index], rest)
    ensures seen == visited + Elements(component + [index]) + Elements(rest)
    ensures |Elements(component)| < |Elements(component + [index])| <= |g|
  {
    Popped(g, start, visited, component, rest, index);
    Counted(g, start, component, rest, index);
  }

  lemma TurnEnds(
      g: Graph, start: nat, visited: set<nat>, component: seq<nat>, rest: seq<nat>, index: nat, seen: set<nat>,
      stack: seq<nat>, seen': set<nat>)
    requires Searching(g, start, visited, component, rest + [index], seen) && index < |g|
    requires seen' == visited + Elements(component + [index]) + Elements(stack)
    requires Apart(visited, component + [index], stack) && Reached(g, start, component + [index], stack)
    requires rest <= stack && g[index] <= seen' && seen <= seen'
    ensures Searching(g, start, visited, component + [index], stack, seen')
  {
    ScannedGrows(g, component, index, seen, seen');
    StillListed(start, component, rest, index, stack);
  }

  lemma StillListed(start: nat, component: seq<nat>, rest: seq<nat>, index: nat, stack: seq<nat>)
    requires start in component || start in rest + [index]
    requires rest <= stack
    ensures start in component + [index] || start in stack
  {
    assert start in rest ==> start in stack;
    assert start in component ==> start in component + [index];
    assert (component + [index])[|component|] == index;
  }

  ghost predicate Scanned(g: Graph, component: seq<nat>, visited: set<nat>) {
    forall i :: i in component && i < |g| ==> g[i] <= visited
  }

  lemma Popped(g: Graph, start: nat, visited: set<nat>, component: seq<nat>, rest: seq<nat>, index: nat)
    requires Apart(visited, component, rest + [index]) && Reached(g, start, component, rest + [index])
    ensures index < |g| && Connected(g, start, index)
    ensures Apart(visited, component + [index], rest) && Reached(g, start, component + [index], rest)
    ensures Elements(component + [index]) + Elements(rest) == Elements(component) + Elements(rest + [index])
    ensures forall j :: j in component || j in rest + [index] ==> j in component + [index] || j in rest
  {
    var stack := rest + [index];
    assert stack[|rest|] == index && index in stack;
    assert Elements(stack) == Elements(rest) + {index};
    assert Elements(component + [index]) == Elements(component) + {index};
    assert index in Elements(stack) && index !in Elements(component);
    assert forall i :: 0 <= i < |rest| ==> stack[i] == rest[i];
    assert index !in rest;
    assert forall j :: j in stack <==> j in rest || j == index;
    assert forall j :: j in component + [index] <==> j in component || j == index;
  }

  lemma Counted(g: Graph, start: nat, component: seq<nat>, rest: seq<nat>, index: nat)
    requires Reached(g, start, component + [index], rest) && Distinct(component + [index])
    ensures |Elements(component)| < |Elements(component + [index])| <= |g|
  {
    var all := component + [index];
    assert all[|component|] == index && forall i :: 0 <= i < |component| ==> all[i] == component[i];
    assert index !in component && index in all;
    assert forall j :: j in component ==> j in all;
    Bounded(g, component, index);
    Smaller(Elements(all), Upto(|g|));
  }

  lemma ScannedGrows(g: Graph, component: seq<nat>, index: nat, before: set<nat>, after: set<nat>)
    requires Scanned(g, component, before) && before <= after && index < |g| && g[index] <= after
    ensures Scanned(g, component + [index], after)
  {
    forall i | i in component + [index] && i < |g| ensures g[i] <= after {
      assert i in component || i == index;
    }
  }

  lemma SearchStarts(g: Graph, start: nat, visited: set<nat>)
    requires start < |g| && start !in visited
    ensures Searching(g, start, visited, [], [start], visited + {start})
  {
    ConnectedSelf(g, start);
    assert Elements([start]) == {start} && Elements([]) == {};
  }

  lemma SearchEnds(g: Graph, start: nat, visited: set<nat>, component: seq<nat>, seen: set<nat>)
    requires ValidGraph(g) && Closed(g, visited)
    requires Searching(g, start, visited, component, [], seen)
    ensures Distinct(component) && Elements(component) !! visited
    ensures seen == visited + Elements(component) && Closed(g, seen)
    ensures forall j :: j in component <==> Connected(g, start, j)
  {
    var found := Elements(component);
    forall i, j | i in found && Edge(g, i, j) ensures j in found {
      assert Edge(g, j, i);
    }
    forall j | Connected(g, start, j) ensures j in component {
      ConnectedStaysIn(g, found, start, j);
    }
  }

  method Pop(stack: seq<nat>) returns (rest: seq<nat>, index: nat)
    requires stack != []
    ensures stack == rest + [index]
  {
    rest, index := stack[..|stack| - 1], stack[|stack| - 1];
  }

  // `for neighbor in &adjacency[index]`.
  method PushUnvisited(
      g: Graph, ghost start: nat, index: nat, ghost component: seq<nat>, stack: seq<nat>,
      ghost visited: set<nat>, seen: set<nat>)
    returns (stack': seq<nat>, seen': set<nat>)
    requires ValidGraph(g) && index < |g| && Connected(g, start, index)
    requires seen == visited + Elements(component) + Elements(stack)
    requires Apart(visited, component, stack) && Reached(g, start, component, stack)
    ensures seen' == visited + Elements(component) + Elements(stack')
    ensures Apart(visited, component, stack') && Reached(g, start, component, stack')
    ensures stack <= stack' && g[index] <= seen' && seen <= seen'
  {
    stack', seen' := stack, seen;
    var rest := g[index];
    while rest != {}
      invariant rest <= g[index] && g[index] - rest <= seen' && seen <= seen' && stack <= stack'
      invariant seen' == visited + Elements(component) + Elements(stack')
      invariant Apart(visited, component, stack') && Reached(g, start, component, stack')
      decreases rest
    {
      ghost var some := AnElement(rest);
      var neighbor :| neighbor in rest;
      rest := rest - {neighbor};
      assert Edge(g, index, neighbor);
      if neighbor !in seen' {
        ConnectedStep(g, start, index, neighbor);
        assert Elements(stack' + [neighbor]) == Elements(stack') + {neighbor};
        seen' := seen' + {neighbor};
        stack' := stack' + [neighbor];
      }
    }
  }

  lemma Bounded(g: Graph, component: seq<nat>, x: nat)
    requires forall j :: j in component ==> j < |g|
    requires x < |g| && x !in component
    ensures |Elements(component)| < |g|
    ensures |Elements(component + [x])| == |Elements(component)| + 1
  {
    assert Elements(component + [x]) == Elements(component) + {x};
    Smaller(Elements(component) + {x}, Upto(|g|));
  }

  ghost function Upto(n: nat): (s: set<nat>)
    ensures |s| == n && forall k: nat :: k in s <==> k < n
  {
    if n == 0 then {} else Upto(n - 1) + {n - 1}
  }

  ghost predicate SameNodes(g: Graph, component: seq<nat>) {
    forall a, b :: a in component ==> (b in component <==> Connected(g, a, b))
  }

  // The outer loop returns every connected class that has an edge, once.
  method Components(g: Graph) returns (components: seq<seq<nat>>)
    requires ValidGraph(g)
    ensures forall c :: c in components ==> c != [] && Distinct(c) && SameNodes(g, c)
    ensures forall c, a :: c in components && a in c ==> a < |g| && g[a] != {}
    ensures forall a: nat :: a < |g| && g[a] != {} ==> exists c :: c in components && a in c
    ensures forall i, j :: 0 <= i < j < |components| ==> Elements(components[i]) !! Elements(components[j])
  {
    var visited: set<nat> := {};
    components := [];
    for start := 0 to |g|
      invariant Closed(g, visited)
      invariant forall a: nat :: a < start && g[a] != {} ==> a in visited
      invariant forall a :: a in visited <==> exists c :: c in components && a in c
      invariant forall c :: c in components ==> c != [] && Distinct(c) && SameNodes(g, c)
      invariant forall c, a :: c in components && a in c ==> a < |g| && g[a] != {}
      invariant forall i, j :: 0 <= i < j < |components| ==> Elements(components[i]) !! Elements(components[j])
    {
      if g[start] != {} && start !in visited {
        var component;
        ghost var before := visited;
        component, visited := Explore(g, start, visited);
        ComponentFacts(g, start, component);
        ConnectedSelf(g, start);
        forall a | a in visited ensures exists c :: c in components + [component] && a in c {
          if a in before {
            var c :| c in components && a in c;
            assert c in components + [component];
          } else {
            assert component in components + [component] && a in component;
          }
        }
        forall i | 0 <= i < |components| ensures Elements(components[i]) !! Elements(component) {
          assert components[i] in components;
        }
        components := components + [component];
      }
    }
  }

  lemma ComponentFacts(g: Graph, start: nat, component: seq<nat>)
    requires ValidGraph(g) && start < |g| && g[start] != {}
    requires forall j :: j in component <==> Connected(g, start, j)
    ensures SameNodes(g, component)
    ensures forall a :: a in component ==> a < |g| && g[a] != {}
  {
    forall a, b | a in component ensures b in component <==> Connected(g, a, b) {
      ConnectedSymmetric(g, start, a);
      if Connected(g, a, b) { ConnectedTransitive(g, start, a, b); }
      if b in component { ConnectedTransitive(g, a, start, b); }
    }
    forall a | a in component ensures a < |g| && g[a] != {} {
      var p :| Joins(g, p, start, a);
      if |p| > 1 {
        assert Edge(g, p[|p| - 2], p[|p| - 1]);
        assert Edge(g, a, p[|p| - 2]);
      }
    }
  }
}
