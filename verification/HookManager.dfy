/** The dependency graph of hooks and the depth-first order in which they run. */
module HookGraph {
  import opened Collections

  type Graph = map<string, seq<string>>

  function Deps(g: Graph, hook: string): seq<string> {
    if hook in g then g[hook] else []
  }

  /** The two variables that the recursive visit updates. */
  datatype Walk = Walk(seen: set<string>, order: seq<string>)

  datatype Visited = Overflow | Done(walk: Walk)

  /** The visit with a bounded call stack; a hook is marked seen only after its dependencies returned. */
  function Visit(g: Graph, hook: string, w: Walk, frames: nat): Visited
    decreases frames, 0
  {
    if frames == 0 then Overflow
    else if hook in w.seen then Done(w)
    else match VisitAll(g, Deps(g, hook), w, frames - 1)
      case Overflow => Overflow
      case Done(v) => Done(Walk(v.seen + {hook}, v.order + [hook]))
  }

  function VisitAll(g: Graph, hooks: seq<string>, w: Walk, frames: nat): Visited
    decreases frames, |hooks| + 1
  {
    if hooks == [] then Done(w)
    else
      var n := |hooks| - 1;
      match VisitAll(g, hooks[..n], w, frames)
      case Overflow => Overflow
      case Done(v) => Visit(g, hooks[n], v, frames)
  }

  function Resolve(g: Graph, requested: seq<string>, frames: nat): Visited {
    VisitAll(g, requested, Walk({}, []), frames)
  }

  // ----- reachability, as membership in every closed set -----

  ghost predicate Closed(g: Graph, s: set<string>) {
    forall x, d :: x in s && d in Deps(g, x) ==> d in s
  }

  /** `to` lies in every dependency-closed set that contains `from`. */
  ghost predicate Reaches(g: Graph, from: string, to: string) {
    forall s: set<string> :: from in s && Closed(g, s) ==> to in s
  }

  ghost predicate OnCycle(g: Graph, x: string) {
    exists d :: d in Deps(g, x) && Reaches(g, d, x)
  }

  ghost predicate Reachable(g: Graph, requested: seq<string>, x: string) {
    exists r :: r in requested && Reaches(g, r, x)
  }

  ghost predicate AcyclicFrom(g: Graph, requested: seq<string>) {
    forall x :: Reachable(g, requested, x) ==> !OnCycle(g, x)
  }

  /** Duplicate-free, and every hook comes after all of its dependencies. */
  ghost predicate Topological(g: Graph, order: seq<string>) {
    && (forall i, j :: 0 <= i < j < |order| ==> order[i] != order[j])
    && (forall i, d :: 0 <= i < |order| && d in Deps(g, order[i]) ==> d in order[..i])
  }

  ghost predicate Good(g: Graph, w: Walk) {
    Topological(g, w.order) && (forall x :: x in w.seen <==> x in w.order)
  }

  function Elements(order: seq<string>): set<string> {
    set x | x in order
  }

  lemma PrefixClosed(g: Graph, order: seq<string>, n: nat)
    requires Topological(g, order) && n <= |order|
    ensures Closed(g, Elements(order[..n]))
  {
    forall x, d | x in Elements(order[..n]) && d in Deps(g, x) ensures d in Elements(order[..n]) {
      var i :| 0 <= i < n && order[i] == x;
      assert d in order[..i];
      assert order[..i] == order[..n][..i];
    }
  }

  /** No hook of a topological order lies on a cycle. */
  lemma TopologicalMeansAcyclic(g: Graph, order: seq<string>, x: string)
    requires Topological(g, order) && x in order
    ensures !OnCycle(g, x)
  {
    var i :| 0 <= i < |order| && order[i] == x;
    PrefixClosed(g, order, i);
    assert x !in Elements(order[..i]);
    forall d | d in Deps(g, x) ensures !Reaches(g, d, x) {
      assert d in Elements(order[..i]);
    }
  }

  lemma ReachesStep(g: Graph, from: string, x: string, d: string)
    requires Reaches(g, from, x) && d in Deps(g, x)
    ensures Reaches(g, from, d)
  {
  }

  // ----- a finished walk is a topological order of what is reachable -----

  ghost predicate Grows(g: Graph, before: Walk, after: Walk, hooks: seq<string>) {
    && Good(g, after)
    && before.order <= after.order
    && (forall h :: h in hooks ==> h in after.order)
    && (forall x :: x in after.order && x !in before.order ==> Reachable(g, hooks, x))
  }

  lemma {:induction false} VisitGrows(g: Graph, hook: string, w: Walk, frames: nat)
    requires Good(g, w) && Visit(g, hook, w, frames).Done?
    ensures Grows(g, w, Visit(g, hook, w, frames).walk, [hook])
    decreases frames, 0
  {
    if hook !in w.seen {
      var deps := Deps(g, hook);
      VisitAllGrows(g, deps, w, frames - 1);
      var v := VisitAll(g, deps, w, frames - 1).walk;
      var after := Walk(v.seen + {hook}, v.order + [hook]);
      if hook in v.order {
        TopologicalMeansAcyclic(g, v.order, hook);
        assert false;
      }
      AppendHook(g, v.order, hook);
      forall x | x in after.order && x !in w.order ensures Reachable(g, [hook], x) {
        assert hook in [hook];
        if x != hook {
          var d :| d in deps && Reaches(g, d, x);
          assert Reaches(g, hook, d);
        }
      }
    }
  }

  lemma AppendHook(g: Graph, order: seq<string>, hook: string)
    requires Topological(g, order) && hook !in order
    requires forall d :: d in Deps(g, hook) ==> d in order
    ensures Topological(g, order + [hook])
  {
    var all := order + [hook];
    forall i, d | 0 <= i < |all| && d in Deps(g, all[i]) ensures d in all[..i] {
      if i < |order| { assert all[..i] == order[..i]; } else { assert all[..i] == order; }
    }
  }

  lemma {:induction false} VisitAllGrows(g: Graph, hooks: seq<string>, w: Walk, frames: nat)
    requires Good(g, w) && VisitAll(g, hooks, w, frames).Done?
    ensures Grows(g, w, VisitAll(g, hooks, w, frames).walk, hooks)
    decreases frames, |hooks| + 1
  {
    if hooks != [] {
      var n := |hooks| - 1;
      VisitAllGrows(g, hooks[..n], w, frames);
      var v := VisitAll(g, hooks[..n], w, frames).walk;
      VisitGrows(g, hooks[n], v, frames);
      var after := Visit(g, hooks[n], v, frames).walk;
      assert hooks == hooks[..n] + [hooks[n]];
      forall x | x in after.order && x !in w.order ensures Reachable(g, hooks, x) {
        if x in v.order {
          var r :| r in hooks[..n] && Reaches(g, r, x);
          assert r in hooks;
        } else {
          var r :| r in [hooks[n]] && Reaches(g, r, x);
          assert r in hooks;
        }
      }
    }
  }

  /** Every finished resolution is duplicate-free, puts every hook after all of its dependencies,
      and contains exactly the hooks reachable from the requested ones. */
  lemma ResolvedOrder(g: Graph, requested: seq<string>, frames: nat)
    requires Resolve(g, requested, frames).Done?
    ensures var order := Resolve(g, requested, frames).walk.order;
            && Topological(g, order)
            && forall x :: x in order <==> Reachable(g, requested, x)
  {
    VisitAllGrows(g, requested, Walk({}, []), frames);
    var order := Resolve(g, requested, frames).walk.order;
    PrefixClosed(g, order, |order|);
    assert order[..|order|] == order;
    forall x | Reachable(g, requested, x) ensures x in order {
      var r :| r in requested && Reaches(g, r, x);
      assert r in Elements(order);
    }
  }

  // ----- how deep the stack gets -----

  /** Every name that occurs in the graph or in the request. */
  function Names(g: Graph, requested: seq<string>): set<string> {
    g.Keys + (set x, d | x in g.Keys && d in g[x] :: d) + Elements(requested)
  }

  /** The hooks being visited: each reaches `hook` through one of its dependencies. */
  ghost predicate Stack(g: Graph, stack: set<string>, hook: string) {
    forall a :: a in stack ==> exists d :: d in Deps(g, a) && Reaches(g, d, hook)
  }

  ghost predicate Descends(
    g: Graph, requested: seq<string>, universe: set<string>, stack: set<string>, hook: string)
  {
    && AcyclicFrom(g, requested) && Reachable(g, requested, hook)
    && Closed(g, universe) && hook in universe && stack <= universe && Stack(g, stack, hook)
  }

  /** On the way down no hook is met twice, so the stack has room for it. */
  lemma DescentHasRoom(g: Graph, requested: seq<string>, universe: set<string>, stack: set<string>, hook: string)
    requires Descends(g, requested, universe, stack, hook)
    ensures hook !in stack && |stack| < |universe|
  {
    assert !OnCycle(g, hook);
    assert hook !in stack;
    SubsetSize(stack + {hook}, universe);
  }

  lemma DescentStep(
    g: Graph, requested: seq<string>, universe: set<string>, stack: set<string>, hook: string, dep: string)
    requires Descends(g, requested, universe, stack, hook) && dep in Deps(g, hook)
    ensures Descends(g, requested, universe, stack + {hook}, dep)
  {
    var r :| r in requested && Reaches(g, r, hook);
    ReachesStep(g, r, hook, dep);
    forall a | a in stack + {hook} ensures exists d :: d in Deps(g, a) && Reaches(g, d, dep) {
      if a == hook {
        assert Reaches(g, dep, dep);
      } else {
        var d :| d in Deps(g, a) && Reaches(g, d, hook);
        ReachesStep(g, d, hook, dep);
      }
    }
  }

  lemma {:induction false} VisitFits(
    g: Graph, requested: seq<string>, universe: set<string>, stack: set<string>, hook: string, w: Walk, frames: nat)
    requires Descends(g, requested, universe, stack, hook)
    requires frames + |stack| > |universe|
    ensures Visit(g, hook, w, frames).Done?
    decreases frames, 0
  {
    DescentHasRoom(g, requested, universe, stack, hook);
    if hook !in w.seen {
      VisitAllFits(g, requested, universe, stack, hook, Deps(g, hook), w, frames - 1);
    }
  }

  lemma {:induction false} VisitAllFits(
    g: Graph, requested: seq<string>, universe: set<string>, stack: set<string>, hook: string,
    hooks: seq<string>, w: Walk, frames: nat)
    requires Descends(g, requested, universe, stack, hook) && hooks <= Deps(g, hook)
    requires frames + 1 + |stack| > |universe|
    ensures VisitAll(g, hooks, w, frames).Done?
    decreases frames, |hooks| + 1
  {
    if hooks != [] {
      var n := |hooks| - 1;
      VisitAllFits(g, requested, universe, stack, hook, hooks[..n], w, frames);
      assert hooks[n] in Deps(g, hook);
      DescentHasRoom(g, requested, universe, stack, hook);
      DescentStep(g, requested, universe, stack, hook, hooks[n]);
      VisitFits(g, requested, universe, stack + {hook}, hooks[n], VisitAll(g, hooks[..n], w, frames).walk, frames);
    }
  }

  lemma {:induction false} RequestFits(g: Graph, requested: seq<string>, hooks: seq<string>)
    requires AcyclicFrom(g, requested) && hooks <= requested
    ensures VisitAll(g, hooks, Walk({}, []), |Names(g, requested)| + 1).Done?
  {
    if hooks != [] {
      var n := |hooks| - 1;
      var frames := |Names(g, requested)| + 1;
      RequestFits(g, requested, hooks[..n]);
      assert hooks[n] in requested && Reaches(g, hooks[n], hooks[n]);
      assert Closed(g, Names(g, requested));
      VisitFits(g, requested, Names(g, requested), {}, hooks[n],
                VisitAll(g, hooks[..n], Walk({}, []), frames).walk, frames);
    }
  }

  /** Resolution returns for some stack depth exactly when no reachable hook lies on a cycle,
      and then a stack one deeper than the number of names is enough. */
  lemma ResolvesIffAcyclic(g: Graph, requested: seq<string>)
    ensures (exists frames: nat :: Resolve(g, requested, frames).Done?) <==> AcyclicFrom(g, requested)
    ensures AcyclicFrom(g, requested) ==> Resolve(g, requested, |Names(g, requested)| + 1).Done?
  {
    if AcyclicFrom(g, requested) {
      RequestFits(g, requested, requested);
      assert Resolve(g, requested, |Names(g, requested)| + 1).Done?;
    }
    if frames: nat :| Resolve(g, requested, frames).Done? {
      ResolvedOrder(g, requested, frames);
      var order := Resolve(g, requested, frames).walk.order;
      forall x | Reachable(g, requested, x) ensures !OnCycle(g, x) {
        TopologicalMeansAcyclic(g, order, x);
      }
    }
  }

  // ----- what registering an action does to the graph -----

  ghost predicate Acyclic(g: Graph) {
    forall x :: !OnCycle(g, x)
  }

  /** Whether `x` reaches `name` does not depend on the dependencies of `name` itself. */
  lemma ReachesIgnoresTarget(g: Graph, name: string, required: seq<string>, x: string)
    ensures Reaches(g, x, name) <==> Reaches(g[name := required], x, name)
  {
    var h := g[name := required];
    forall s: set<string> | name !in s ensures Closed(g, s) <==> Closed(h, s) {
      assert forall y :: y in s ==> Deps(g, y) == Deps(h, y);
    }
  }

  function Universe(g: Graph, x: string): set<string> {
    Names(g, [x])
  }

  ghost function ReachedBy(g: Graph, x: string): (s: set<string>)
    ensures forall y :: y in s <==> Reaches(g, x, y)
    ensures x in s && Closed(g, s)
  {
    var s := set y | y in Universe(g, x) && Reaches(g, x, y);
    assert Closed(g, Universe(g, x));
    assert x in Universe(g, x);
    s
  }

  /** In an acyclic graph, registering keeps it acyclic exactly when no required hook already depends on the name. */
  lemma RegisterKeepsAcyclic(g: Graph, name: string, required: seq<string>)
    requires Acyclic(g)
    ensures Acyclic(g[name := required]) <==> forall r :: r in required ==> !Reaches(g, r, name)
  {
    var h := g[name := required];
    forall x ensures Reaches(g, x, name) <==> Reaches(h, x, name) { ReachesIgnoresTarget(g, name, required, x); }
    if forall r :: r in required ==> !Reaches(g, r, name) {
      forall x ensures !OnCycle(h, x) {
        if x != name {
          forall d | d in Deps(h, x) ensures !Reaches(h, d, x) {
            assert d in Deps(g, x);
            NoNewCycle(g, name, required, d, x);
          }
        }
      }
    } else {
      var r :| r in required && Reaches(g, r, name);
      assert r in Deps(h, name) && Reaches(h, r, name);
      assert OnCycle(h, name);
    }
  }

  ghost function ReachedByAny(g: Graph, hooks: seq<string>): (s: set<string>)
    ensures forall y :: y in s <==> Reachable(g, hooks, y)
    ensures Closed(g, s)
  {
    if hooks == [] then {}
    else
      var n := |hooks| - 1;
      assert hooks == hooks[..n] + [hooks[n]];
      var s := ReachedByAny(g, hooks[..n]) + ReachedBy(g, hooks[n]);
      assert forall y :: Reachable(g, hooks, y) ==>
        Reachable(g, hooks[..n], y) || Reaches(g, hooks[n], y);
      assert forall y :: Reachable(g, hooks[..n], y) ==> Reachable(g, hooks, y) by {
        assert forall r :: r in hooks[..n] ==> r in hooks;
      }
      assert hooks[n] in hooks;
      s
  }

  /** The old reach of `d`, together with the reach of what the name now requires, is closed in the new graph;
      it contains `x` only if the old graph had a cycle or a required hook already reached the name. */
  lemma NoNewCycle(g: Graph, name: string, required: seq<string>, d: string, x: string)
    requires Acyclic(g) && x != name && d in Deps(g, x)
    requires forall r :: r in required ==> !Reaches(g, r, name)
    ensures !Reaches(g[name := required], d, x)
  {
    var h := g[name := required];
    assert !OnCycle(g, x);
    var reach := ReachedBy(g, d);
    if !Reaches(g, d, name) {
      assert Closed(h, reach);
    } else {
      var both := reach + ReachedByAny(g, required);
      assert Closed(h, both) by {
        forall y, e | y in both && e in Deps(h, y) ensures e in both {
          if y == name {
            assert Reaches(g, e, e) && Reachable(g, required, e);
          } else {
            assert e in Deps(g, y);
          }
        }
      }
      assert x !in both;
    }
  }
}

/** Registration, resolution and the run loop. */
module Hooks {
  import opened HookGraph

  datatype Outcome = Success | Timeout | Error

  datatype Callback = Callback(id: int)

  const ABORT := "abort"

  predicate StopsRun(policy: map<string, string>, outcomes: string -> Outcome, name: string) {
    outcomes(name) != Success && name in policy && policy[name] == ABORT
  }

  /** The actions attempted along an order: unknown ones are skipped, an aborting failure is the last one. */
  function AttemptedOf(
    order: seq<string>, known: set<string>, policy: map<string, string>, outcomes: string -> Outcome): seq<string>
  {
    if order == [] then []
    else if order[0] !in known then AttemptedOf(order[1..], known, policy, outcomes)
    else if StopsRun(policy, outcomes, order[0]) then [order[0]]
    else [order[0]] + AttemptedOf(order[1..], known, policy, outcomes)
  }

  class HookManager {
    var actionMap: map<string, Callback>
    var dependencies: Graph
    var executionPolicy: map<string, string>

    constructor (actions: map<string, Callback>)
      ensures actionMap == actions && dependencies == map[] && executionPolicy == map[]
    {
      actionMap, dependencies, executionPolicy := actions, map[], map[];
    }

    method RegisterAction(name: string, fn: Callback, required: seq<string> := [], policy: string := ABORT)
      modifies this
      ensures actionMap == old(actionMap)[name := fn]
      ensures dependencies == old(dependencies)[name := required]
      ensures executionPolicy == old(executionPolicy)[name := policy]
      ensures Acyclic(old(dependencies)) ==>
                (Acyclic(dependencies) <==> forall r :: r in required ==> !Reaches(old(dependencies), r, name))
    {
      actionMap := actionMap[name := fn];
      dependencies := dependencies[name := required];
      executionPolicy := executionPolicy[name := policy];
      if Acyclic(old(dependencies)) { RegisterKeepsAcyclic(old(dependencies), name, required); }
    }

    method VisitHook(hook: string, w: Walk, ghost frames: nat) returns (after: Walk)
      requires Visit(dependencies, hook, w, frames).Done?
      ensures Visit(dependencies, hook, w, frames) == Done(after)
      decreases frames
    {
      after := w;
      if hook in after.seen { return; }
      var deps := Deps(dependencies, hook);
      for i := 0 to |deps|
        invariant VisitAll(dependencies, deps[..i], w, frames - 1) == Done(after)
      {
        StaysDone(dependencies, deps, w, frames - 1, i + 1);
        assert deps[..i + 1][..i] == deps[..i];
        after := VisitHook(deps[i], after, frames - 1);
      }
      assert deps[..|deps|] == deps;
      after := Walk(after.seen + {hook}, after.order + [hook]);
    }

    method ResolveExecutionOrder(actions: seq<(string, int)>) returns (order: seq<string>)
      requires AcyclicFrom(dependencies, Requested(actions))
      ensures Topological(dependencies, order)
      ensures forall x :: x in order <==> Reachable(dependencies, Requested(actions), x)
    {
      var requested := Requested(actions);
      ghost var frames := |Names(dependencies, requested)| + 1;
      ResolvesIffAcyclic(dependencies, requested);
      var w := Walk({}, []);
      for i := 0 to |actions|
        invariant VisitAll(dependencies, requested[..i], Walk({}, []), frames) == Done(w)
      {
        StaysDone(dependencies, requested, Walk({}, []), frames, i + 1);
        assert requested[..i + 1][..i] == requested[..i];
        w := VisitHook(actions[i].0, w, frames);
      }
      assert requested[..|actions|] == requested;
      ResolvedOrder(dependencies, requested, frames);
      order := w.order;
    }

    /** `order` is the order taken; `attempted` lists the actions whose callback was called, in order. */
    method Run(actions: seq<(string, int)>, outcomes: string -> Outcome)
      returns (order: seq<string>, attempted: seq<string>)
      requires AcyclicFrom(dependencies, Requested(actions))
      ensures Topological(dependencies, order)
      ensures forall x :: x in order <==> Reachable(dependencies, Requested(actions), x)
      ensures attempted == AttemptedOf(order, actionMap.Keys, executionPolicy, outcomes)
    {
      order := ResolveExecutionOrder(actions);
      attempted := [];
      for i := 0 to |order|
        invariant AttemptedOf(order, actionMap.Keys, executionPolicy, outcomes)
                  == attempted + AttemptedOf(order[i..], actionMap.Keys, executionPolicy, outcomes)
      {
        var name := order[i];
        assert order[i..][1..] == order[i + 1..];
        if name !in actionMap { continue; }
        attempted := attempted + [name];
        if outcomes(name) != Success {
          if name in executionPolicy && executionPolicy[name] == ABORT { break; }
        }
      }
    }
  }

  function Requested(actions: seq<(string, int)>): seq<string> {
    seq(|actions|, i requires 0 <= i < |actions| => actions[i].0)
  }

  lemma {:induction false} StaysDone(g: Graph, hooks: seq<string>, w: Walk, frames: nat, n: nat)
    requires VisitAll(g, hooks, w, frames).Done? && n <= |hooks|
    ensures VisitAll(g, hooks[..n], w, frames).Done?
  {
    if n < |hooks| {
      var front := hooks[..|hooks| - 1];
      StaysDone(g, front, w, frames, n);
      assert front[..n] == hooks[..n];
    } else {
      assert hooks[..n] == hooks;
    }
  }

  // ----- what a run guarantees -----

  /** Attempted actions are known and in order, each once; a known action of the order is left out only
      behind an aborting failure; only the last attempt can be an aborting failure. */
  lemma {:induction false} AttemptedMeaning(
    order: seq<string>, known: set<string>, policy: map<string, string>, outcomes: string -> Outcome)
    ensures var attempted := AttemptedOf(order, known, policy, outcomes);
            && (forall j :: 0 <= j < |attempted| ==> attempted[j] in known && attempted[j] in order)
            && (forall j :: 0 <= j < |attempted| - 1 ==> !StopsRun(policy, outcomes, attempted[j]))
            && ((forall x :: x in attempted ==> !StopsRun(policy, outcomes, x)) ==>
                  forall x :: x in order && x in known ==> x in attempted)
  {
    if order != [] {
      AttemptedMeaning(order[1..], known, policy, outcomes);
      assert order == [order[0]] + order[1..];
      var rest := AttemptedOf(order[1..], known, policy, outcomes);
      var attempted := AttemptedOf(order, known, policy, outcomes);
      if order[0] in known && !StopsRun(policy, outcomes, order[0]) {
        assert attempted == [order[0]] + rest;
        assert forall x :: x in attempted <==> x == order[0] || x in rest;
      }
    }
  }

  /** When an action is attempted, every known hook before it in the order was attempted before it. */
  lemma {:induction false} EarlierAttempted(
    order: seq<string>, known: set<string>, policy: map<string, string>, outcomes: string -> Outcome, i: nat, j: nat)
    requires i < |order| && order[i] in known
    requires forall p, q :: 0 <= p < q < |order| ==> order[p] != order[q]
    requires var attempted := AttemptedOf(order, known, policy, outcomes);
             j < |attempted| && attempted[j] in order[i + 1..]
    ensures order[i] in AttemptedOf(order, known, policy, outcomes)[..j]
  {
    var rest := AttemptedOf(order[1..], known, policy, outcomes);
    var attempted := AttemptedOf(order, known, policy, outcomes);
    assert order[i + 1..] == order[1..][i..];
    if order[0] !in known {
      assert order[1..][i - 1] == order[i];
      assert order[1..][i..] == order[i + 1..];
      EarlierAttempted(order[1..], known, policy, outcomes, i - 1, j);
    } else {
      assert attempted[0] == order[0];
      var p :| i + 1 <= p < |order| && order[p] == attempted[j];
      assert j > 0;
      assert attempted[..j][0] == order[0];
      if i > 0 {
        assert attempted == [order[0]] + rest;
        EarlierAttempted(order[1..], known, policy, outcomes, i - 1, j - 1);
        assert attempted[..j] == [order[0]] + rest[..j - 1];
      }
    }
  }

  /** No action is attempted before a known dependency of it was, nor after one failed under the abort policy. */
  lemma DependenciesFirst(
    g: Graph, order: seq<string>, known: set<string>, policy: map<string, string>, outcomes: string -> Outcome,
    j: nat, d: string)
    requires Topological(g, order)
    requires j < |AttemptedOf(order, known, policy, outcomes)|
    requires d in Deps(g, AttemptedOf(order, known, policy, outcomes)[j]) && d in known
    ensures d in AttemptedOf(order, known, policy, outcomes)[..j]
    ensures !StopsRun(policy, outcomes, d)
  {
    var attempted := AttemptedOf(order, known, policy, outcomes);
    AttemptedMeaning(order, known, policy, outcomes);
    var p :| 0 <= p < |order| && order[p] == attempted[j];
    var i :| 0 <= i < p && order[i] == d;
    assert order[i + 1..][p - i - 1] == attempted[j];
    EarlierAttempted(order, known, policy, outcomes, i, j);
    var q :| 0 <= q < j && attempted[q] == d;
  }
}
