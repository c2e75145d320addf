/**
 * When resolution succeeds, that it is stable, and the order of disposal, for
 * every finite dependency graph.
 */
module ContainerTheory {
  import opened Common
  import opened ContainerSpec

  /** Nothing is under construction: the state between top-level calls. */
  ghost predicate Idle(c: Chain) {
    c.Scope? ==> c.top.resolving == {} && Idle(c.parent)
  }

  // ---- the dependency graph ----

  /** `t` is not held, and building it in the top container needs `d`. */
  ghost predicate Needs(cls: Classes, c: Chain, t: Token, d: Token)
    requires c.Scope?
  {
    && !Holds(c.top.held, t)
    && PlanFor(cls, c, t).Make? && PlanFor(cls, c, t).recipe.Build?
    && Some(d) in PlanFor(cls, c, t).recipe.deps
  }

  /** A chain of needs, each token needed by the one before it. */
  ghost predicate Path(cls: Classes, c: Chain, p: seq<Token>)
    requires c.Scope?
  {
    |p| > 0 && forall i :: 0 <= i < |p| - 1 ==> Needs(cls, c, p[i], p[i + 1])
  }

  /** `t` cannot be built: unbound, a parameter without a token, or stuck in the parent it belongs to. */
  ghost predicate DeadEnd(cls: Classes, c: Chain, t: Token)
    requires c.Scope?
    decreases Depth(c), 0
  {
    && !Holds(c.top.held, t)
    && match PlanFor(cls, c, t)
       case Missing => true
       case Delegate => Stuck(cls, c.parent, t)
       case Make(recipe, _) => recipe.Build? && None in recipe.deps
  }

  ghost predicate Repeats(p: seq<Token>) {
    |p| > 0 && exists j :: 0 <= j < |p| - 1 && p[j] == p[|p| - 1]
  }

  /** The container is disposed, or a chain of needs from `t` ends in a dead end or in a cycle. */
  ghost predicate Stuck(cls: Classes, c: Chain, t: Token)
    requires c.Scope?
    decreases Depth(c), 1
  {
    || c.top.disposed
    || exists p :: Path(cls, c, p) && p[0] == t && (DeadEnd(cls, c, p[|p| - 1]) || Repeats(p))
  }

  // ---- the graph does not depend on what is under construction, and shrinks as instances are held ----

  ghost predicate Grows(c: Chain, c': Chain) {
    match (c, c')
    case (NoParent, NoParent) => true
    case (Scope(top, parent), Scope(top', parent')) =>
      && top'.bindings == top.bindings && top'.disposed == top.disposed
      && (forall x :: Holds(top.held, x) ==> Holds(top'.held, x)) && Grows(parent, parent')
    case _ => false
  }

  lemma {:induction false} HoldsPrefix(held: seq<Slot>, held': seq<Slot>, x: Token)
    requires held <= held' && Holds(held, x)
    ensures Index(held', x) == Index(held, x) && held'[Index(held', x)] == held[Index(held, x)]
  {
    assert held'[0] == held[0];
    if held[0].token != x { HoldsPrefix(held[1..], held'[1..], x); }
  }

  lemma {:induction false} ExtendsGrows(c: Chain, c': Chain)
    requires Extends(c, c')
    ensures Grows(c, c')
  {
    if c.Scope? {
      forall x | Holds(c.top.held, x) ensures Holds(c'.top.held, x) { HoldsPrefix(c.top.held, c'.top.held, x); }
      ExtendsGrows(c.parent, c'.parent);
    }
  }

  lemma {:induction false} GrowsRefl(c: Chain)
    ensures Grows(c, c)
  {
    if c.Scope? { GrowsRefl(c.parent); }
  }

  lemma {:induction false} GrowsPlan(cls: Classes, c: Chain, c': Chain, t: Token)
    requires Grows(c, c')
    ensures FindBinding(c, t) == FindBinding(c', t) && Depth(c) == Depth(c')
    ensures c.Scope? ==> PlanFor(cls, c, t) == PlanFor(cls, c', t)
  {
    if c.Scope? { GrowsPlan(cls, c.parent, c'.parent, t); }
  }

  lemma {:induction false} PathShrinks(cls: Classes, c: Chain, c': Chain, p: seq<Token>)
    requires c.Scope? && Grows(c, c') && Path(cls, c', p)
    ensures Path(cls, c, p)
  {
    forall i | 0 <= i < |p| - 1 ensures Needs(cls, c, p[i], p[i + 1]) {
      assert Needs(cls, c', p[i], p[i + 1]);
      GrowsPlan(cls, c, c', p[i]);
    }
  }

  lemma {:induction false} DeadEndShrinks(cls: Classes, c: Chain, c': Chain, t: Token)
    requires c.Scope? && Grows(c, c') && DeadEnd(cls, c', t)
    ensures DeadEnd(cls, c, t)
    decreases Depth(c), 0
  {
    GrowsPlan(cls, c, c', t);
    if PlanFor(cls, c, t).Delegate? { StuckShrinks(cls, c.parent, c'.parent, t); }
  }

  lemma {:induction false} StuckShrinks(cls: Classes, c: Chain, c': Chain, t: Token)
    requires c.Scope? && Grows(c, c') && Stuck(cls, c', t)
    ensures Stuck(cls, c, t)
    decreases Depth(c), 1
  {
    if !c.top.disposed {
      var p :| Path(cls, c', p) && p[0] == t && (DeadEnd(cls, c', p[|p| - 1]) || Repeats(p));
      PathShrinks(cls, c, c', p);
      if DeadEnd(cls, c', p[|p| - 1]) { DeadEndShrinks(cls, c, c', p[|p| - 1]); }
    }
  }

  // ---- failure has a reason ----

  /** The path `p` explains a failure, given what was already under construction. */
  ghost predicate Explains(cls: Classes, c: Chain, p: seq<Token>)
    requires c.Scope?
  {
    && Path(cls, c, p)
    && (DeadEnd(cls, c, p[|p| - 1]) || Repeats(p) || p[|p| - 1] in c.top.resolving)
  }

  lemma ExplainsShrinks(cls: Classes, c: Chain, c': Chain, p: seq<Token>)
    requires c.Scope? && Grows(c, c') && c'.top.resolving == c.top.resolving && Explains(cls, c', p)
    ensures Explains(cls, c, p)
  {
    PathShrinks(cls, c, c', p);
    if DeadEnd(cls, c', p[|p| - 1]) { DeadEndShrinks(cls, c, c', p[|p| - 1]); }
  }

  lemma {:induction false} FailureExplained(cls: Classes, c: Chain, next: nat, t: Token) returns (p: seq<Token>)
    requires c.Scope? && !c.top.disposed && Idle(c.parent)
    requires Resolve(cls, c, next, t).out.Err?
    ensures |p| > 0 && p[0] == t && Explains(cls, c, p)
    decreases Depth(c), Pending(cls, c), 1, 0
  {
    p := [t];
    match PlanFor(cls, c, t) {
      case Missing =>
      case Delegate => FailureIsStuck(cls, c.parent, next, t);
      case Make(recipe, cached) =>
        if t !in c.top.resolving {
          NamesBound(cls, c, t);
          Shrinks(cls, c, t);
          var q := ConstructExplained(cls, Enter(c, t), next, recipe.deps, |recipe.deps|);
          if q != [] {
            p := [t] + q;
            EnterExplains(cls, c, t, q);
          }
        }
    }
  }

  /** A reason for the failure of a dependency is one for the failure of what needs it. */
  lemma EnterExplains(cls: Classes, c: Chain, t: Token, q: seq<Token>)
    requires c.Scope? && |q| > 0 && Needs(cls, c, t, q[0]) && Explains(cls, Enter(c, t), q)
    ensures Explains(cls, c, [t] + q)
  {
    var e := Enter(c, t);
    GrowsRefl(c.parent);
    assert Grows(c, e);
    PathShrinks(cls, c, e, q);
    var p := [t] + q;
    forall i | 0 <= i < |p| - 1 ensures Needs(cls, c, p[i], p[i + 1]) {
      if i > 0 { assert Needs(cls, c, q[i - 1], q[i]); }
    }
    if DeadEnd(cls, e, q[|q| - 1]) {
      DeadEndShrinks(cls, c, e, q[|q| - 1]);
    } else if Repeats(q) {
      var j :| 0 <= j < |q| - 1 && q[j] == q[|q| - 1];
      assert p[j + 1] == p[|p| - 1];
    } else if q[|q| - 1] == t {
      assert p[0] == p[|p| - 1];
    }
  }

  lemma {:induction false} ConstructExplained(cls: Classes, c: Chain, next: nat, deps: seq<Option<Token>>, n: nat)
      returns (q: seq<Token>)
    requires c.Scope? && !c.top.disposed && Idle(c.parent) && n <= |deps|
    requires ResolveAll(cls, c, next, deps, n).out.Err?
    ensures q == [] ==> None in deps
    ensures q != [] ==> Some(q[0]) in deps && Explains(cls, c, q)
    decreases Depth(c), Pending(cls, c), 2, n
  {
    var r := ResolveAll(cls, c, next, deps, n - 1);
    if r.out.Err? {
      q := ConstructExplained(cls, c, next, deps, n - 1);
    } else if deps[n - 1].None? {
      q := [];
    } else {
      ExtendsFacts(cls, c, r.chain);
      IdleExtends(c.parent, r.chain.parent);
      q := FailureExplained(cls, r.chain, r.next, deps[n - 1].value);
      ExtendsGrows(c, r.chain);
      ExplainsShrinks(cls, c, r.chain, q);
    }
  }

  lemma {:induction false} IdleExtends(c: Chain, c': Chain)
    requires Extends(c, c') && Idle(c)
    ensures Idle(c')
  {
    if c.Scope? { IdleExtends(c.parent, c'.parent); }
  }

  lemma {:induction false} FailureIsStuck(cls: Classes, c: Chain, next: nat, t: Token)
    requires c.Scope? && Idle(c) && Resolve(cls, c, next, t).out.Err?
    ensures Stuck(cls, c, t)
    decreases Depth(c), Pending(cls, c), 4, 0
  {
    if !c.top.disposed {
      var p := FailureExplained(cls, c, next, t);
    }
  }

  // ---- success has a reason ----

  /** `t` is held, or can be built with everything it needs within `n` levels. */
  ghost predicate Buildable(cls: Classes, c: Chain, t: Token, n: nat)
    decreases Depth(c), n
  {
    && c.Scope? && !c.top.disposed
    && (Holds(c.top.held, t) ||
        match PlanFor(cls, c, t)
        case Missing => false
        case Delegate => Buildable(cls, c.parent, t, n)
        case Make(recipe, _) =>
          recipe.Constant? ||
          (n > 0 && forall i :: 0 <= i < |recipe.deps| ==>
                      recipe.deps[i].Some? && Buildable(cls, c, recipe.deps[i].value, n - 1)))
  }

  lemma {:induction false} BuildableMore(cls: Classes, c: Chain, t: Token, n: nat, m: nat)
    requires Buildable(cls, c, t, n) && n <= m
    ensures Buildable(cls, c, t, m)
    decreases Depth(c), n
  {
    if !Holds(c.top.held, t) {
      match PlanFor(cls, c, t) {
        case Delegate => BuildableMore(cls, c.parent, t, n, m);
        case Make(recipe, _) =>
          if recipe.Build? {
            forall i | 0 <= i < |recipe.deps| ensures Buildable(cls, c, recipe.deps[i].value, m - 1) {
              BuildableMore(cls, c, recipe.deps[i].value, n - 1, m - 1);
            }
          }
      }
    }
  }

  /** What `c'` holds and `c` does not can be built in `c`, at every layer. */
  ghost predicate NewBuildable(cls: Classes, c: Chain, c': Chain, n: nat) {
    c.Scope? && c'.Scope? ==>
      && (forall x :: Holds(c'.top.held, x) && !Holds(c.top.held, x) ==> Buildable(cls, c, x, n))
      && NewBuildable(cls, c.parent, c'.parent, n)
  }

  lemma {:induction false} NewBuildableRefl(cls: Classes, c: Chain, c': Chain, n: nat)
    requires Grows(c, c') && Grows(c', c)
    ensures NewBuildable(cls, c, c', n)
  {
    if c.Scope? { NewBuildableRefl(cls, c.parent, c'.parent, n); }
  }

  lemma {:induction false} NewBuildableMore(cls: Classes, c: Chain, c': Chain, n: nat, m: nat)
    requires Grows(c, c') && NewBuildable(cls, c, c', n) && n <= m
    ensures NewBuildable(cls, c, c', m)
  {
    if c.Scope? {
      forall x | Holds(c'.top.held, x) && !Holds(c.top.held, x) ensures Buildable(cls, c, x, m) {
        BuildableMore(cls, c, x, n, m);
      }
      NewBuildableMore(cls, c.parent, c'.parent, n, m);
    }
  }

  /** What can be built on top of newly held instances can be built without them. */
  lemma {:induction false} Lift(cls: Classes, c: Chain, c': Chain, t: Token, n: nat, m: nat)
    requires Grows(c, c') && NewBuildable(cls, c, c', m) && Buildable(cls, c', t, n)
    ensures Buildable(cls, c, t, n + m)
    decreases Depth(c), n
  {
    if Holds(c'.top.held, t) {
      if !Holds(c.top.held, t) { BuildableMore(cls, c, t, m, n + m); }
    } else {
      GrowsPlan(cls, c, c', t);
      match PlanFor(cls, c, t) {
        case Delegate => Lift(cls, c.parent, c'.parent, t, n, m);
        case Make(recipe, _) =>
          if recipe.Build? && !Holds(c.top.held, t) {
            forall i | 0 <= i < |recipe.deps| ensures Buildable(cls, c, recipe.deps[i].value, n - 1 + m) {
              Lift(cls, c, c', recipe.deps[i].value, n - 1, m);
            }
          }
      }
    }
  }

  lemma {:induction false} LiftNew(cls: Classes, a: Chain, b: Chain, c: Chain, n: nat, m: nat)
    requires Grows(a, b) && Grows(b, c) && Grows(a, c)
    requires NewBuildable(cls, a, b, m) && NewBuildable(cls, b, c, n)
    ensures NewBuildable(cls, a, c, n + m)
  {
    if a.Scope? {
      forall x | Holds(c.top.held, x) && !Holds(a.top.held, x) ensures Buildable(cls, a, x, n + m) {
        if Holds(b.top.held, x) {
          BuildableMore(cls, a, x, m, n + m);
        } else {
          Lift(cls, a, b, x, n, m);
        }
      }
      LiftNew(cls, a.parent, b.parent, c.parent, n, m);
    }
  }

  lemma {:induction false} SuccessIsBuildable(cls: Classes, c: Chain, next: nat, t: Token) returns (n: nat)
    requires c.Scope? && Resolve(cls, c, next, t).out.Ok?
    ensures Buildable(cls, c, t, n)
    ensures NewBuildable(cls, c, Resolve(cls, c, next, t).chain, n)
    decreases Depth(c), Pending(cls, c), 1, 0
  {
    GrowsRefl(c);
    n := 0;
    if Holds(c.top.held, t) {
      NewBuildableRefl(cls, c, c, 0);
    } else {
      match PlanFor(cls, c, t) {
        case Delegate => n := SuccessIsBuildable(cls, c.parent, next, t);
        case Make(recipe, cached) =>
          NamesBound(cls, c, t);
          Shrinks(cls, c, t);
          n := MakeIsBuildable(cls, c, next, t, recipe, cached);
      }
    }
  }

  lemma {:induction false} MakeIsBuildable(cls: Classes, c: Chain, next: nat, t: Token, recipe: Recipe, cached: bool)
      returns (n: nat)
    requires c.Scope? && !c.top.disposed && !Holds(c.top.held, t) && t !in c.top.resolving
    requires PlanFor(cls, c, t) == Make(recipe, cached) && Construct(cls, Enter(c, t), next, recipe).out.Ok?
    ensures Buildable(cls, c, t, n)
    ensures var f := Finish(c, t, cached, recipe.Build?, Construct(cls, Enter(c, t), next, recipe)).chain;
            NewBuildable(cls, c, f, n)
    decreases Depth(c), Pending(cls, c), 0, 0
  {
    NamesBound(cls, c, t);
    Shrinks(cls, c, t);
    hide *;
    n := ConstructIsBuildable(cls, c, next, t, recipe, cached);
    FinishIsBuildable(cls, c, t, cached, recipe.Build?, Construct(cls, Enter(c, t), next, recipe), n);
  }

  lemma {:induction false} ConstructIsBuildable(cls: Classes, c: Chain, next: nat, t: Token, recipe: Recipe, cached: bool)
      returns (n: nat)
    requires c.Scope? && !c.top.disposed && !Holds(c.top.held, t) && t !in c.top.resolving
    requires PlanFor(cls, c, t) == Make(recipe, cached) && Construct(cls, Enter(c, t), next, recipe).out.Ok?
    requires Pending(cls, Enter(c, t)) < Pending(cls, c)
    ensures Buildable(cls, c, t, n)
    ensures NewBuildable(cls, Enter(c, t), Construct(cls, Enter(c, t), next, recipe).chain, n)
    decreases Depth(c), Pending(cls, Enter(c, t)), 5, 0
  {
    EnterGrows(cls, c, t);
    var k := Construct(cls, Enter(c, t), next, recipe).chain;
    ExtendsGrows(Enter(c, t), k);
    if recipe.Build? {
      var m := AllBuildable(cls, Enter(c, t), next, recipe.deps, |recipe.deps|);
      DepsBuildable(cls, c, t, recipe, cached, m);
      n := m + 1;
      NewBuildableMore(cls, Enter(c, t), k, m, n);
    } else {
      n := 0;
      NewBuildableRefl(cls, Enter(c, t), Enter(c, t), 0);
    }
    hide NewBuildable, Buildable;
  }

  lemma DepsBuildable(cls: Classes, c: Chain, t: Token, recipe: Recipe, cached: bool, m: nat)
    requires c.Scope? && !c.top.disposed && PlanFor(cls, c, t) == Make(recipe, cached) && recipe.Build?
    requires FirstBuildable(cls, Enter(c, t), recipe.deps, |recipe.deps|, m)
    ensures Buildable(cls, c, t, m + 1)
  {
    EnterGrows(cls, c, t);
    forall i | 0 <= i < |recipe.deps| ensures Buildable(cls, c, recipe.deps[i].value, m) {
      Lift(cls, c, Enter(c, t), recipe.deps[i].value, m, 0);
    }
  }

  lemma FinishIsBuildable(cls: Classes, c: Chain, t: Token, cached: bool, made: bool, k: Outcome<Inst>, n: nat)
    requires c.Scope? && !Holds(c.top.held, t) && t !in c.top.resolving
    requires Extends(Enter(c, t), k.chain) && NoneFinished(Enter(c, t), k.chain)
    requires Buildable(cls, c, t, n) && NewBuildable(cls, Enter(c, t), k.chain, n)
    ensures NewBuildable(cls, c, Finish(c, t, cached, made, k).chain, n)
  {
    EnterGrows(cls, c, t);
    ExtendsGrows(Enter(c, t), k.chain);
    LiftNew(cls, c, Enter(c, t), k.chain, n, 0);
    FinishHolds(c, t, cached, made, k);
  }

  lemma EnterGrows(cls: Classes, c: Chain, t: Token)
    requires c.Scope?
    ensures Grows(c, c) && Grows(c, Enter(c, t)) && Grows(Enter(c, t), c) && Grows(Enter(c, t), Enter(c, t))
    ensures NewBuildable(cls, c, Enter(c, t), 0)
    ensures forall d :: Grows(Enter(c, t), d) ==> Grows(c, d)
  {
    GrowsRefl(c.parent);
    NewBuildableRefl(cls, c, Enter(c, t), 0);
  }

  /** Leaving the construction of `t` holds nothing new but `t`. */
  lemma FinishHolds(c: Chain, t: Token, cached: bool, made: bool, e: Outcome<Inst>)
    requires c.Scope? && !Holds(c.top.held, t) && t !in c.top.resolving
    requires Extends(Enter(c, t), e.chain) && NoneFinished(Enter(c, t), e.chain)
    ensures var f := Finish(c, t, cached, made, e).chain;
            && f.Scope? && f.parent == e.chain.parent
            && (forall x :: Holds(f.top.held, x) ==> Holds(e.chain.top.held, x) || x == t)
            && (e.out.Ok? && cached ==> f.top.held == e.chain.top.held + [Slot(t, e.out.value, made)])
  {
    if e.out.Ok? { IndexAppend(e.chain.top.held, Slot(t, e.out.value, made)); }
  }

  lemma {:induction false} AllBuildable(cls: Classes, c: Chain, next: nat, deps: seq<Option<Token>>, k: nat)
      returns (n: nat)
    requires c.Scope? && k <= |deps| && ResolveAll(cls, c, next, deps, k).out.Ok?
    ensures FirstBuildable(cls, c, deps, k, n)
    ensures NewBuildable(cls, c, ResolveAll(cls, c, next, deps, k).chain, n)
    decreases Depth(c), Pending(cls, c), 2, k, 1
  {
    if k == 0 {
      n := 0;
      GrowsRefl(c);
      NewBuildableRefl(cls, c, c, 0);
    } else {
      n := NextBuildable(cls, c, next, deps, k);
    }
  }

  lemma {:induction false} NextBuildable(cls: Classes, c: Chain, next: nat, deps: seq<Option<Token>>, k: nat)
      returns (n: nat)
    requires c.Scope? && 1 <= k <= |deps| && ResolveAll(cls, c, next, deps, k).out.Ok?
    ensures FirstBuildable(cls, c, deps, k, n)
    ensures NewBuildable(cls, c, ResolveAll(cls, c, next, deps, k).chain, n)
    decreases Depth(c), Pending(cls, c), 2, k, 0
  {
    hide *;
    var r, _, d := ResolveAllStep(cls, c, next, deps, k);
    ExtendsFacts(cls, c, r.chain);
    var m := AllBuildable(cls, c, next, deps, k - 1);
    var j := SuccessIsBuildable(cls, r.chain, r.next, deps[k - 1].value);
    n := OneMoreBuildable(cls, c, r.chain, d.chain, deps, k, m, j);
  }

  /** A run over `k` dependencies is a run over the first `k - 1` and, if all is well, one more. */
  lemma ResolveAllStep(cls: Classes, c: Chain, next: nat, deps: seq<Option<Token>>, k: nat)
      returns (r: Outcome<seq<Inst>>, more: bool, d: Outcome<Inst>)
    requires c.Scope? && 1 <= k <= |deps|
    ensures r == ResolveAll(cls, c, next, deps, k - 1) && Extends(c, r.chain) && r.chain.Scope?
    ensures more == (r.out.Ok? && deps[k - 1].Some?)
    ensures var all := ResolveAll(cls, c, next, deps, k);
            if !more then
              all.chain == r.chain && all.next == r.next && all.out.Err? && (r.out.Ok? ==> all.out == Err(BadParameter))
            else
              && d == Resolve(cls, r.chain, r.next, deps[k - 1].value) && Extends(r.chain, d.chain)
              && all.chain == d.chain && all.next == d.next && all.out.Ok? == d.out.Ok?
              && (d.out.Ok? ==> all.out.value == r.out.value + [d.out.value])
              && (d.out.Err? ==> all.out.error == d.out.error)
  {
    r := ResolveAll(cls, c, next, deps, k - 1);
    more := r.out.Ok? && deps[k - 1].Some?;
    d := if more then Resolve(cls, r.chain, r.next, deps[k - 1].value) else Outcome(c, next, Err(BadParameter));
  }

  lemma OneMoreBuildable(cls: Classes, a: Chain, b: Chain, c: Chain, deps: seq<Option<Token>>, k: nat, m: nat, j: nat)
      returns (n: nat)
    requires 1 <= k <= |deps| && Extends(a, b) && Extends(b, c)
    requires FirstBuildable(cls, a, deps, k - 1, m) && NewBuildable(cls, a, b, m)
    requires deps[k - 1].Some? && Buildable(cls, b, deps[k - 1].value, j) && NewBuildable(cls, b, c, j)
    ensures FirstBuildable(cls, a, deps, k, n) && NewBuildable(cls, a, c, n)
  {
    n := j + m;
    ExtendsTrans(a, b, c);
    ExtendsGrows(a, b);
    ExtendsGrows(b, c);
    ExtendsGrows(a, c);
    Lift(cls, a, b, deps[k - 1].value, j, m);
    LiftNew(cls, a, b, c, j, m);
    FirstMore(cls, a, deps, k, m, n);
  }

  ghost predicate FirstBuildable(cls: Classes, c: Chain, deps: seq<Option<Token>>, k: nat, n: nat)
    requires k <= |deps|
  {
    forall i :: 0 <= i < k ==> deps[i].Some? && Buildable(cls, c, deps[i].value, n)
  }

  lemma FirstMore(cls: Classes, c: Chain, deps: seq<Option<Token>>, k: nat, m: nat, n: nat)
    requires 1 <= k <= |deps| && m <= n && FirstBuildable(cls, c, deps, k - 1, m)
    requires deps[k - 1].Some? && Buildable(cls, c, deps[k - 1].value, n)
    ensures FirstBuildable(cls, c, deps, k, n)
  {
    forall i | 0 <= i < k - 1 ensures Buildable(cls, c, deps[i].value, n) {
      BuildableMore(cls, c, deps[i].value, m, n);
    }
  }

  // ---- the two exclude each other ----

  lemma {:induction false} CycleIsNotBuildable(cls: Classes, c: Chain, p: seq<Token>, j: nat, i: nat, n: nat)
    requires c.Scope? && Path(cls, c, p) && j <= i < |p| - 1 && p[j] == p[|p| - 1]
    ensures !Buildable(cls, c, p[i], n)
    decreases n
  {
    assert Needs(cls, c, p[i], p[i + 1]);
    if n > 0 {
      CycleIsNotBuildable(cls, c, p, j, if i + 1 == |p| - 1 then j else i + 1, n - 1);
    }
  }

  lemma {:induction false} PathBuildable(cls: Classes, c: Chain, p: seq<Token>, i: nat, n: nat)
    requires c.Scope? && Path(cls, c, p) && i < |p| && Buildable(cls, c, p[0], n)
    ensures i <= n && Buildable(cls, c, p[i], n - i)
  {
    if i > 0 {
      PathBuildable(cls, c, p, i - 1, n);
      assert Needs(cls, c, p[i - 1], p[i]);
    }
  }

  lemma CycleExcluded(cls: Classes, c: Chain, p: seq<Token>, n: nat)
    requires c.Scope? && Path(cls, c, p) && Buildable(cls, c, p[0], n)
    ensures !Repeats(p)
  {
    forall j | 0 <= j < |p| - 1 && p[j] == p[|p| - 1] ensures false {
      PathBuildable(cls, c, p, j, n);
      CycleIsNotBuildable(cls, c, p, j, j, n - j);
    }
  }

  lemma {:induction false} BuildableIsNotStuck(cls: Classes, c: Chain, t: Token, n: nat)
    requires Buildable(cls, c, t, n)
    ensures !Stuck(cls, c, t)
    decreases Depth(c)
  {
    forall p | Path(cls, c, p) && p[0] == t ensures !DeadEnd(cls, c, p[|p| - 1]) && !Repeats(p) {
      CycleExcluded(cls, c, p, n);
      var last := |p| - 1;
      PathBuildable(cls, c, p, last, n);
      if !Holds(c.top.held, p[last]) && PlanFor(cls, c, p[last]).Delegate? {
        BuildableIsNotStuck(cls, c.parent, p[last], n - last);
      }
    }
  }

  /**
   * Between top-level calls, `resolve` succeeds exactly when nothing unbuildable
   * and no cycle is reachable without passing through a held instance; it
   * terminates either way, and leaves nothing under construction.
   */
  lemma ResolveSucceedsIff(cls: Classes, c: Chain, next: nat, t: Token)
    requires c.Scope? && Idle(c)
    ensures Resolve(cls, c, next, t).out.Ok? <==> !Stuck(cls, c, t)
    ensures Idle(Resolve(cls, c, next, t).chain)
  {
    IdleExtends(c, Resolve(cls, c, next, t).chain);
    if Resolve(cls, c, next, t).out.Ok? {
      var n := SuccessIsBuildable(cls, c, next, t);
      BuildableIsNotStuck(cls, c, t, n);
    } else {
      FailureIsStuck(cls, c, next, t);
    }
  }
}
