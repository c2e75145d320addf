/**
 * What an instance is built from, over every dependency graph: one argument for each
 * parameter, the shared instance of a token that is kept, a fresh one of a transient.
 */
module ContainerArguments {
  import opened Common
  import opened ContainerSpec
  import opened ContainerTheory
  import opened ContainerOrder

  // ---- the right instance for a token ----

  /**
   * `inst` is what `t` stands for in `c`: the instance provided, if the token is kept; for a
   * transient, an object built between `lo` and `hi` from the right instances in its turn.
   */
  ghost predicate Right(cls: Classes, c: Chain, t: Token, inst: Inst, lo: nat, hi: nat)
    requires c.Scope?
    decreases inst, 1
  {
    if Cacheable(cls, c, t) then Provides(cls, c, t, inst)
    else
      PlanFor(cls, c, t).Make? &&
      match PlanFor(cls, c, t).recipe
      case Constant(i) => inst == i
      case Build(deps) => BuiltFrom(cls, c, deps, inst, lo, hi)
  }

  /** An object made between `lo` and `hi`, with the right argument for every parameter. */
  ghost predicate BuiltFrom(cls: Classes, c: Chain, deps: seq<Option<Token>>, inst: Inst, lo: nat, hi: nat)
    requires c.Scope?
    decreases inst, 0
  {
    && lo <= inst.serial < hi && |inst.deps| == |deps|
    && forall k :: 0 <= k < |deps| ==> deps[k].Some? && Right(cls, c, deps[k].value, inst.deps[k], lo, hi)
  }

  // ---- later chains ----

  /** No token is held twice. */
  ghost predicate Unique(held: seq<Slot>) {
    forall i, j :: 0 <= i < j < |held| ==> held[i].token != held[j].token
  }

  /** Instances were added, all of tokens their layer makes and keeps and did not hold before. */
  ghost predicate Later(cls: Classes, c: Chain, c': Chain) {
    match (c, c')
    case (NoParent, NoParent) => true
    case (Scope(top, parent), Scope(top', parent')) =>
      && top'.bindings == top.bindings && top'.disposed == top.disposed && top.held <= top'.held
      && (Unique(top.held) ==> Unique(top'.held))
      && (forall x :: Holds(top'.held, x) && !Holds(top.held, x) ==> PlanFor(cls, c, x).Make? && PlanFor(cls, c, x).cached)
      && Later(cls, parent, parent')
    case _ => false
  }

  lemma {:induction false} LaterRefl(cls: Classes, c: Chain)
    ensures Later(cls, c, c)
  {
    if c.Scope? { LaterRefl(cls, c.parent); }
  }

  lemma {:induction false} LaterGrows(cls: Classes, c: Chain, c': Chain)
    requires Later(cls, c, c')
    ensures Grows(c, c')
  {
    if c.Scope? {
      forall x | Holds(c.top.held, x) ensures Holds(c'.top.held, x) { HoldsPrefix(c.top.held, c'.top.held, x); }
      LaterGrows(cls, c.parent, c'.parent);
    }
  }

  lemma {:induction false} LaterTrans(cls: Classes, a: Chain, b: Chain, c: Chain)
    requires Later(cls, a, b) && Later(cls, b, c)
    ensures Later(cls, a, c)
  {
    if a.Scope? {
      LaterGrows(cls, a, b);
      forall x | Holds(c.top.held, x) && !Holds(a.top.held, x)
        ensures PlanFor(cls, a, x).Make? && PlanFor(cls, a, x).cached
      {
        GrowsPlan(cls, a, b, x);
      }
      LaterTrans(cls, a.parent, b.parent, c.parent);
    }
  }

  /** What is under construction makes no difference. */
  lemma LaterIgnores(cls: Classes, c: Chain, d: Chain, resolving: set<Token>)
    requires c.Scope? && d.Scope?
    ensures Later(cls, c, d.(top := d.top.(resolving := resolving))) <==> Later(cls, c, d)
    ensures Later(cls, c.(top := c.top.(resolving := resolving)), d) <==> Later(cls, c, d)
  {
    var e := c.(top := c.top.(resolving := resolving));
    GrowsRefl(c.parent);
    forall x ensures PlanFor(cls, e, x) == PlanFor(cls, c, x) { assert Grows(c, e); GrowsPlan(cls, c, e, x); }
  }

  lemma {:induction false} ProvidedLater(cls: Classes, c: Chain, c': Chain, t: Token, inst: Inst)
    requires Provides(cls, c, t, inst) && Later(cls, c, c')
    ensures Provides(cls, c', t, inst)
    decreases Depth(c)
  {
    LaterGrows(cls, c, c');
    GrowsPlan(cls, c, c', t);
    if Holds(c.top.held, t) {
      HoldsPrefix(c.top.held, c'.top.held, t);
    } else {
      ProvidedLater(cls, c.parent, c'.parent, t, inst);
    }
  }

  /** A token that is kept stays one, and so does a transient. */
  lemma CacheableLater(cls: Classes, c: Chain, c': Chain, t: Token)
    requires c.Scope? && Later(cls, c, c')
    ensures PlanFor(cls, c, t) == PlanFor(cls, c', t) && (Cacheable(cls, c, t) <==> Cacheable(cls, c', t))
  {
    LaterGrows(cls, c, c');
    GrowsPlan(cls, c, c', t);
    if Holds(c.top.held, t) { HoldsPrefix(c.top.held, c'.top.held, t); }
  }

  /** What is right stays right, in a later chain and a wider span. */
  lemma {:induction false} RightLater(cls: Classes, c: Chain, c': Chain, t: Token, inst: Inst,
                                      lo: nat, hi: nat, lo': nat, hi': nat)
    requires c.Scope? && Later(cls, c, c') && Right(cls, c, t, inst, lo, hi) && lo' <= lo && hi <= hi'
    ensures Right(cls, c', t, inst, lo', hi')
    decreases inst, 1
  {
    CacheableLater(cls, c, c', t);
    if Cacheable(cls, c, t) {
      ProvidedLater(cls, c, c', t, inst);
    } else if PlanFor(cls, c, t).recipe.Build? {
      BuiltLater(cls, c, c', PlanFor(cls, c, t).recipe.deps, inst, lo, hi, lo', hi');
    }
  }

  lemma {:induction false} BuiltLater(cls: Classes, c: Chain, c': Chain, deps: seq<Option<Token>>, inst: Inst,
                                      lo: nat, hi: nat, lo': nat, hi': nat)
    requires c.Scope? && Later(cls, c, c') && BuiltFrom(cls, c, deps, inst, lo, hi) && lo' <= lo && hi <= hi'
    ensures BuiltFrom(cls, c', deps, inst, lo', hi')
    decreases inst, 0
  {
    forall k | 0 <= k < |deps| ensures deps[k].Some? && Right(cls, c', deps[k].value, inst.deps[k], lo', hi') {
      RightLater(cls, c, c', deps[k].value, inst.deps[k], lo, hi, lo', hi');
    }
  }

  // ---- the slots a resolve adds ----

  /** The slot of an object made between `lo` and `hi` by the recipe of its token. */
  ghost predicate SlotBuilt(cls: Classes, c: Chain, s: Slot, lo: nat, hi: nat)
    requires c.Scope?
  {
    && PlanFor(cls, c, s.token).Make? && PlanFor(cls, c, s.token).cached && PlanFor(cls, c, s.token).recipe.Build?
    && BuiltFrom(cls, c, PlanFor(cls, c, s.token).recipe.deps, s.inst, lo, hi)
  }

  /** In every layer, whatever is held that `resolve` made was there before or was built so. */
  ghost predicate NewBuilt(cls: Classes, c: Chain, c': Chain, lo: nat, hi: nat) {
    match (c, c')
    case (Scope(top, parent), Scope(top', parent')) =>
      && (forall s :: s in top'.held && s.made && s !in top.held ==> SlotBuilt(cls, c', s, lo, hi))
      && NewBuilt(cls, parent, parent', lo, hi)
    case _ => true
  }

  lemma {:induction false} NewBuiltRefl(cls: Classes, c: Chain, lo: nat, hi: nat)
    ensures NewBuilt(cls, c, c, lo, hi)
  {
    if c.Scope? { NewBuiltRefl(cls, c.parent, lo, hi); }
  }

  lemma SlotLater(cls: Classes, c: Chain, c': Chain, s: Slot, lo: nat, hi: nat, lo': nat, hi': nat)
    requires c.Scope? && Later(cls, c, c') && SlotBuilt(cls, c, s, lo, hi) && lo' <= lo && hi <= hi'
    ensures SlotBuilt(cls, c', s, lo', hi')
  {
    CacheableLater(cls, c, c', s.token);
    BuiltLater(cls, c, c', PlanFor(cls, c, s.token).recipe.deps, s.inst, lo, hi, lo', hi');
  }

  lemma {:induction false} NewBuiltTrans(cls: Classes, a: Chain, b: Chain, c: Chain, lo: nat, hi: nat,
                                         lo1: nat, hi1: nat, lo2: nat, hi2: nat)
    requires Later(cls, b, c) && NewBuilt(cls, a, b, lo1, hi1) && NewBuilt(cls, b, c, lo2, hi2)
    requires lo <= lo1 && lo <= lo2 && hi1 <= hi && hi2 <= hi && Depth(a) == Depth(b)
    ensures NewBuilt(cls, a, c, lo, hi)
    decreases a
  {
    if a.Scope? && c.Scope? {
      forall s | s in c.top.held && s.made && s !in a.top.held ensures SlotBuilt(cls, c, s, lo, hi) {
        if s in b.top.held {
          SlotLater(cls, b, c, s, lo1, hi1, lo, hi);
        } else {
          LaterRefl(cls, c);
          SlotLater(cls, c, c, s, lo2, hi2, lo, hi);
        }
      }
      NewBuiltTrans(cls, a.parent, b.parent, c.parent, lo, hi, lo1, hi1, lo2, hi2);
    }
  }

  // ---- one resolve ----

  /** What a resolve of `t` in `c` has done when it is over, failed or not. */
  ghost predicate Resolved(cls: Classes, c: Chain, next: nat, t: Token, r: Outcome<Inst>) {
    && c.Scope? && r.chain.Scope? && Later(cls, c, r.chain) && NewBuilt(cls, c, r.chain, next, r.next) && next <= r.next
    && (r.out.Ok? ==> Right(cls, r.chain, t, r.out.value, next, r.next))
  }

  /** The recipe gives this object: the constant it holds, or one built from the right arguments. */
  ghost predicate MadeBy(cls: Classes, c: Chain, recipe: Recipe, inst: Inst, lo: nat, hi: nat)
    requires c.Scope?
  {
    match recipe
    case Constant(i) => inst == i
    case Build(deps) => BuiltFrom(cls, c, deps, inst, lo, hi)
  }

  ghost predicate Constructed(cls: Classes, c: Chain, next: nat, recipe: Recipe, e: Outcome<Inst>) {
    && c.Scope? && e.chain.Scope? && Later(cls, c, e.chain) && NewBuilt(cls, c, e.chain, next, e.next) && next <= e.next
    && (e.out.Ok? ==> MadeBy(cls, e.chain, recipe, e.out.value, next, e.next))
  }

  /** The first `n` arguments are right. */
  ghost predicate RightSoFar(cls: Classes, c: Chain, deps: seq<Option<Token>>, insts: seq<Inst>, n: nat, lo: nat, hi: nat)
    requires c.Scope?
  {
    && n <= |deps| && |insts| == n
    && forall k :: 0 <= k < n ==> deps[k].Some? && Right(cls, c, deps[k].value, insts[k], lo, hi)
  }

  ghost predicate AllResolved(cls: Classes, c: Chain, next: nat, deps: seq<Option<Token>>, n: nat, r: Outcome<seq<Inst>>) {
    && c.Scope? && r.chain.Scope? && Later(cls, c, r.chain) && NewBuilt(cls, c, r.chain, next, r.next) && next <= r.next
    && (r.out.Ok? ==> RightSoFar(cls, r.chain, deps, r.out.value, n, next, r.next))
  }

  lemma NothingDone(cls: Classes, c: Chain, next: nat)
    requires c.Scope?
    ensures Later(cls, c, c) && NewBuilt(cls, c, c, next, next)
  {
    LaterRefl(cls, c);
    NewBuiltRefl(cls, c, next, next);
  }

  lemma {:induction false} ResolveIsRight(cls: Classes, c: Chain, next: nat, t: Token)
    requires c.Scope?
    ensures Resolved(cls, c, next, t, Resolve(cls, c, next, t))
    decreases Depth(c), Pending(cls, c), 1, 0
  {
    NothingDone(cls, c, next);
    if !c.top.disposed && !Holds(c.top.held, t) {
      match PlanFor(cls, c, t) {
        case Missing =>
        case Delegate => DelegatedIsRight(cls, c, next, t);
        case Make(recipe, cached) =>
          if t !in c.top.resolving {
            NamesBound(cls, c, t);
            Shrinks(cls, c, t);
            ConstructIsRight(cls, Enter(c, t), next, recipe);
            FinishIsRight(cls, c, next, t, recipe, cached, Construct(cls, Enter(c, t), next, recipe));
          }
      }
    }
  }

  lemma {:induction false} DelegatedIsRight(cls: Classes, c: Chain, next: nat, t: Token)
    requires c.Scope? && !c.top.disposed && !Holds(c.top.held, t) && PlanFor(cls, c, t).Delegate?
    ensures Resolved(cls, c, next, t, Resolve(cls, c, next, t))
    decreases Depth(c), Pending(cls, c), 0, 0
  {
    var r := Resolve(cls, c.parent, next, t);
    ResolveIsRight(cls, c.parent, next, t);
    if r.out.Ok? {
      DelegatedIsCacheable(cls, c, t);
      ResolvedIsProvided(cls, c.parent, next, t);
    }
    assert Resolve(cls, c, next, t) == r.(chain := c.(parent := r.chain));
    hide *;
    InParent(cls, c, next, t, r);
  }

  /** A child that delegates has what its parent has. */
  lemma InParent(cls: Classes, c: Chain, next: nat, t: Token, r: Outcome<Inst>)
    requires c.Scope? && !c.top.disposed && !Holds(c.top.held, t) && PlanFor(cls, c, t).Delegate?
    requires Resolved(cls, c.parent, next, t, r) && (r.out.Ok? ==> Provides(cls, r.chain, t, r.out.value))
    ensures Resolved(cls, c, next, t, r.(chain := c.(parent := r.chain)))
  {
    var d := c.(parent := r.chain);
    assert Later(cls, c, d);
    CacheableLater(cls, c, d, t);
    hide Right, PlanFor, Later, SlotBuilt;
    if r.out.Ok? { ProvidedIsRight(cls, d, t, r.out.value, next, r.next); }
  }

  lemma FinishIsRight(cls: Classes, c: Chain, next: nat, t: Token, recipe: Recipe, cached: bool, e: Outcome<Inst>)
    requires c.Scope? && !c.top.disposed && !Holds(c.top.held, t) && t !in c.top.resolving
    requires PlanFor(cls, c, t) == Make(recipe, cached)
    requires Extends(Enter(c, t), e.chain) && NoneFinished(Enter(c, t), e.chain)
    requires Constructed(cls, Enter(c, t), next, recipe, e)
    ensures var r := Finish(c, t, cached, recipe.Build?, e);
            Resolved(cls, c, next, t, r) && (r.out.Ok? ==> MadeBy(cls, r.chain, recipe, r.out.value, next, r.next))
  {
    var r := Finish(c, t, cached, recipe.Build?, e);
    var d := e.chain;
    FinishIs(c, t, cached, recipe.Build?, e);
    EnteredLater(cls, c, t, d, next, e.next);
    CacheableLater(cls, c, d, t);
    hide Finish, Extends, NoneFinished, Later, NewBuilt, PlanFor, Right;
    if e.out.Ok? && cached {
      var slot := Slot(t, e.out.value, recipe.Build?);
      AddsOne(cls, d, r.chain, slot, next, e.next);
      LaterTrans(cls, c, d, r.chain);
      LaterGrows(cls, c, d);
      SameDepth(c, d);
      NewBuiltTrans(cls, c, d, r.chain, next, e.next, next, e.next, next, e.next);
    } else {
      KeepsNone(cls, c, d, r.chain, t, recipe, e, next);
    }
  }

  lemma {:induction false} SameDepth(c: Chain, c': Chain)
    requires Grows(c, c')
    ensures Depth(c) == Depth(c')
  {
    if c.Scope? { SameDepth(c.parent, c'.parent); }
  }

  /** What is left of a construction: the chain, no longer under construction, and the slot if it is kept. */
  lemma FinishIs(c: Chain, t: Token, cached: bool, made: bool, e: Outcome<Inst>)
    requires c.Scope? && !Holds(c.top.held, t) && t !in c.top.resolving
    requires Extends(Enter(c, t), e.chain) && NoneFinished(Enter(c, t), e.chain)
    ensures var r := Finish(c, t, cached, made, e);
            && e.chain.Scope? && !Holds(e.chain.top.held, t) && !e.chain.top.disposed == !c.top.disposed
            && r.out == e.out && r.next == e.next
            && r.chain == e.chain.(top := e.chain.top.(resolving := c.top.resolving,
                 held := if e.out.Ok? && cached then e.chain.top.held + [Slot(t, e.out.value, made)]
                         else e.chain.top.held))
  {
    FinishHolds(c, t, cached, made, e);
  }

  lemma EnteredLater(cls: Classes, c: Chain, t: Token, d: Chain, lo: nat, hi: nat)
    requires c.Scope? && d.Scope? && Later(cls, Enter(c, t), d) && NewBuilt(cls, Enter(c, t), d, lo, hi)
    ensures Later(cls, c, d) && NewBuilt(cls, c, d, lo, hi)
  {
    LaterIgnores(cls, c, d, c.top.resolving + {t});
    hide SlotBuilt;
  }

  lemma {:induction false} NotHeld(held: seq<Slot>, t: Token)
    ensures !Holds(held, t) <==> forall k :: 0 <= k < |held| ==> held[k].token != t
  {
    if |held| > 0 && held[0].token != t {
      NotHeld(held[1..], t);
      assert forall k :: 1 <= k < |held| ==> held[k] == held[1..][k - 1];
      assert forall k :: 0 <= k < |held| - 1 ==> held[1..][k] == held[k + 1];
    }
  }

  /** One more slot, of a token this layer makes and keeps. */
  lemma AddsOne(cls: Classes, d: Chain, f: Chain, slot: Slot, lo: nat, hi: nat)
    requires d.Scope? && !Holds(d.top.held, slot.token) && !d.top.disposed
    requires PlanFor(cls, d, slot.token).Make? && PlanFor(cls, d, slot.token).cached
    requires slot.made == PlanFor(cls, d, slot.token).recipe.Build?
    requires slot.made ==> BuiltFrom(cls, d, PlanFor(cls, d, slot.token).recipe.deps, slot.inst, lo, hi)
    requires f.Scope? && f.parent == d.parent && f.top == d.top.(resolving := f.top.resolving, held := d.top.held + [slot])
    ensures Later(cls, d, f) && NewBuilt(cls, d, f, lo, hi) && Right(cls, f, slot.token, slot.inst, lo, hi)
    ensures slot.made ==> BuiltFrom(cls, f, PlanFor(cls, d, slot.token).recipe.deps, slot.inst, lo, hi)
  {
    IndexAppend(d.top.held, slot);
    NotHeld(d.top.held, slot.token);
    LaterRefl(cls, d.parent);
    NewBuiltRefl(cls, d.parent, lo, hi);
    forall x | Holds(f.top.held, x) && !Holds(d.top.held, x) ensures x == slot.token {}
    assert Later(cls, d, f);
    CacheableLater(cls, d, f, slot.token);
    hide PlanFor;
    if slot.made {
      BuiltLater(cls, d, f, PlanFor(cls, d, slot.token).recipe.deps, slot.inst, lo, hi, lo, hi);
    }
    hide Right, BuiltFrom;
    assert Provides(cls, f, slot.token, slot.inst);
    assert Cacheable(cls, f, slot.token);
    ProvidedIsRight(cls, f, slot.token, slot.inst, lo, hi);
  }

  lemma ProvidedIsRight(cls: Classes, c: Chain, t: Token, inst: Inst, lo: nat, hi: nat)
    requires c.Scope? && Cacheable(cls, c, t) && Provides(cls, c, t, inst)
    ensures Right(cls, c, t, inst, lo, hi)
  {
  }

  /** A transient, or a failure, leaves nothing behind. */
  lemma KeepsNone(cls: Classes, c: Chain, d: Chain, f: Chain, t: Token, recipe: Recipe, e: Outcome<Inst>, next: nat)
    requires c.Scope? && d.Scope? && e.chain == d && f == d.(top := d.top.(resolving := c.top.resolving))
    requires Later(cls, c, d) && NewBuilt(cls, c, d, next, e.next) && next <= e.next
    requires !Holds(d.top.held, t) && PlanFor(cls, d, t).Make? && PlanFor(cls, d, t).recipe == recipe
    requires e.out.Ok? ==> !PlanFor(cls, d, t).cached
    requires e.out.Ok? ==> MadeBy(cls, d, recipe, e.out.value, next, e.next)
    ensures Later(cls, c, f) && NewBuilt(cls, c, f, next, e.next)
    ensures e.out.Ok? ==> Right(cls, f, t, e.out.value, next, e.next) && MadeBy(cls, f, recipe, e.out.value, next, e.next)
  {
    LaterRefl(cls, d);
    LaterIgnores(cls, d, d, c.top.resolving);
    LaterTrans(cls, c, d, f);
    NewBuiltRefl(cls, d.parent, next, e.next);
    assert NewBuilt(cls, d, f, next, e.next);
    LaterGrows(cls, c, d);
    SameDepth(c, d);
    NewBuiltTrans(cls, c, d, f, next, e.next, next, e.next, next, e.next);
    CacheableLater(cls, d, f, t);
    if e.out.Ok? && recipe.Build? {
      BuiltLater(cls, d, f, recipe.deps, e.out.value, next, e.next, next, e.next);
    }
    hide Later, NewBuilt, BuiltFrom, PlanFor;
  }

  lemma {:induction false} ConstructIsRight(cls: Classes, c: Chain, next: nat, recipe: Recipe)
    requires c.Scope?
    ensures Constructed(cls, c, next, recipe, Construct(cls, c, next, recipe))
    decreases Depth(c), Pending(cls, c), 3, 0
  {
    match recipe {
      case Constant(_) => NothingDone(cls, c, next);
      case Build(deps) =>
        AllAreRight(cls, c, next, deps, |deps|);
        BuildsLast(cls, c, next, deps);
    }
  }

  lemma BuildsLast(cls: Classes, c: Chain, next: nat, deps: seq<Option<Token>>)
    requires c.Scope? && AllResolved(cls, c, next, deps, |deps|, ResolveAll(cls, c, next, deps, |deps|))
    ensures Constructed(cls, c, next, Build(deps), Construct(cls, c, next, Build(deps)))
  {
    var r := ResolveAll(cls, c, next, deps, |deps|);
    var e := Construct(cls, c, next, Build(deps));
    hide ResolveAll;
    LaterRefl(cls, r.chain);
    NewBuiltRefl(cls, r.chain, next, e.next);
    LaterGrows(cls, c, r.chain);
    SameDepth(c, r.chain);
    NewBuiltTrans(cls, c, r.chain, r.chain, next, e.next, next, r.next, next, e.next);
    if r.out.Ok? {
      forall k | 0 <= k < |deps|
        ensures deps[k].Some? && Right(cls, r.chain, deps[k].value, r.out.value[k], next, e.next)
      {
        RightLater(cls, r.chain, r.chain, deps[k].value, r.out.value[k], next, r.next, next, e.next);
      }
    }
    hide Right, Later, NewBuilt;
  }

  lemma {:induction false} AllAreRight(cls: Classes, c: Chain, next: nat, deps: seq<Option<Token>>, n: nat)
    requires c.Scope? && n <= |deps|
    ensures AllResolved(cls, c, next, deps, n, ResolveAll(cls, c, next, deps, n))
    decreases Depth(c), Pending(cls, c), 2, n, 1
  {
    if n == 0 {
      NothingDone(cls, c, next);
    } else {
      NextIsRight(cls, c, next, deps, n);
    }
  }

  lemma {:induction false} NextIsRight(cls: Classes, c: Chain, next: nat, deps: seq<Option<Token>>, n: nat)
    requires c.Scope? && 1 <= n <= |deps|
    ensures AllResolved(cls, c, next, deps, n, ResolveAll(cls, c, next, deps, n))
    decreases Depth(c), Pending(cls, c), 2, n, 0
  {
    hide *;
    var r, more, d := ResolveAllStep(cls, c, next, deps, n);
    AllAreRight(cls, c, next, deps, n - 1);
    if more {
      ExtendsFacts(cls, c, r.chain);
      ResolveIsRight(cls, r.chain, r.next, deps[n - 1].value);
    }
    OneMoreRight(cls, c, next, deps, n, r, more, d, ResolveAll(cls, c, next, deps, n));
  }

  lemma OneMoreRight(cls: Classes, c: Chain, next: nat, deps: seq<Option<Token>>, n: nat, r: Outcome<seq<Inst>>,
                     more: bool, d: Outcome<Inst>, all: Outcome<seq<Inst>>)
    requires 1 <= n <= |deps| && AllResolved(cls, c, next, deps, n - 1, r) && more == (r.out.Ok? && deps[n - 1].Some?)
    requires more ==> Resolved(cls, r.chain, r.next, deps[n - 1].value, d)
    requires if !more then all.chain == r.chain && all.next == r.next && all.out.Err?
             else
               && all.chain == d.chain && all.next == d.next && all.out.Ok? == d.out.Ok?
               && (d.out.Ok? ==> all.out.value == r.out.value + [d.out.value])
    ensures AllResolved(cls, c, next, deps, n, all)
  {
    hide Later, NewBuilt, Right;
    if more {
      LaterTrans(cls, c, r.chain, d.chain);
      LaterGrows(cls, c, r.chain);
      SameDepth(c, r.chain);
      NewBuiltTrans(cls, c, r.chain, d.chain, next, d.next, next, r.next, r.next, d.next);
      if d.out.Ok? {
        LaterRefl(cls, d.chain);
        RightLater(cls, d.chain, d.chain, deps[n - 1].value, d.out.value, r.next, d.next, next, d.next);
        forall k | 0 <= k < n
          ensures deps[k].Some? && Right(cls, d.chain, deps[k].value, all.out.value[k], next, d.next)
        {
          if k < n - 1 {
            RightLater(cls, r.chain, d.chain, deps[k].value, r.out.value[k], next, r.next, next, d.next);
          }
        }
      }
    }
  }

  // ---- the container's promises, by lifetime ----

  /** The top container holds this instance for the token. */
  predicate KeepsHere(c: Chain, t: Token, inst: Inst)
    requires c.Scope?
  {
    Holds(c.top.held, t) && c.top.held[Index(c.top.held, t)].inst == inst
  }

  /**
   * A token that is not held resolves by what binds it.  A singleton bound further up is the
   * parent's, and nothing is added here.  Anything else is made here, by the recipe bound to
   * it or, for a class that nothing binds, from its parameters; and it is held here from then
   * on unless it is transient.
   */
  lemma ResolvesByLifetime(cls: Classes, c: Chain, next: nat, t: Token)
    requires c.Scope? && !c.top.disposed && !Holds(c.top.held, t) && Resolve(cls, c, next, t).out.Ok?
    ensures var r, b := Resolve(cls, c, next, t), FindBinding(c, t);
            && r.chain.Scope?
            && (b.None? ==>
                  t in cls && KeepsHere(r.chain, t, r.out.value)
                  && BuiltFrom(cls, r.chain, cls[t], r.out.value, next, r.next))
            && (b.Some? && t !in c.top.bindings && b.value.lifetime.Singleton? ==>
                  c.parent.Scope? && r.out == Resolve(cls, c.parent, next, t).out && r.chain.top == c.top)
            && (b.Some? && (t in c.top.bindings || !b.value.lifetime.Singleton?) ==>
                  && MadeBy(cls, r.chain, b.value.recipe, r.out.value, next, r.next)
                  && (if b.value.lifetime.Transient? then !Holds(r.chain.top.held, t)
                      else KeepsHere(r.chain, t, r.out.value)))
  {
    PlanIs(cls, c, t);
    if PlanFor(cls, c, t).Make? {
      MadeHere(cls, c, next, t);
    } else {
      hide FindBinding, PlanFor;
    }
    hide *;
  }

  /** What binds a token decides how it is provided. */
  lemma PlanIs(cls: Classes, c: Chain, t: Token)
    requires c.Scope?
    ensures var b := FindBinding(c, t);
            PlanFor(cls, c, t) ==
              if b.None? then (if t in cls then Make(Build(cls[t]), true) else Missing)
              else if t !in c.top.bindings && b.value.lifetime.Singleton? then Delegate
              else Make(b.value.recipe, !b.value.lifetime.Transient?)
  {
    hide FindBinding;
  }

  lemma MadeHere(cls: Classes, c: Chain, next: nat, t: Token)
    requires c.Scope? && !c.top.disposed && !Holds(c.top.held, t) && Resolve(cls, c, next, t).out.Ok?
    requires PlanFor(cls, c, t).Make?
    ensures var r, p := Resolve(cls, c, next, t), PlanFor(cls, c, t);
            && r.chain.Scope? && MadeBy(cls, r.chain, p.recipe, r.out.value, next, r.next)
            && if p.cached then KeepsHere(r.chain, t, r.out.value) else !Holds(r.chain.top.held, t)
  {
    var recipe, cached := PlanFor(cls, c, t).recipe, PlanFor(cls, c, t).cached;
    NamesBound(cls, c, t);
    Shrinks(cls, c, t);
    var e := Construct(cls, Enter(c, t), next, recipe);
    assert Resolve(cls, c, next, t) == Finish(c, t, cached, recipe.Build?, e);
    ConstructIsRight(cls, Enter(c, t), next, recipe);
    FinishIsRight(cls, c, next, t, recipe, cached, e);
    FinishIs(c, t, cached, recipe.Build?, e);
    if cached { IndexAppend(e.chain.top.held, Slot(t, e.out.value, recipe.Build?)); }
    hide *;
    HeldOrNot(e.chain, Finish(c, t, cached, recipe.Build?, e).chain, Slot(t, e.out.value, recipe.Build?), cached);
  }

  lemma HeldOrNot(d: Chain, f: Chain, slot: Slot, cached: bool)
    requires d.Scope? && f.Scope? && !Holds(d.top.held, slot.token)
    requires f.top.held == if cached then d.top.held + [slot] else d.top.held
    ensures if cached then KeepsHere(f, slot.token, slot.inst) else !Holds(f.top.held, slot.token)
  {
    IndexAppend(d.top.held, slot);
  }

  /**
   * Whatever is constructed has exactly one argument for each parameter, in order: of a token
   * that is kept the instance it resolves to afterwards, of a transient an object constructed
   * for it alone during this very resolve.
   */
  lemma ArgumentsAre(cls: Classes, c: Chain, deps: seq<Option<Token>>, inst: Inst, lo: nat, hi: nat, k: nat)
    requires c.Scope? && BuiltFrom(cls, c, deps, inst, lo, hi) && k < |deps|
    ensures |inst.deps| == |deps| && lo <= inst.serial < hi && deps[k].Some?
    ensures var t, d := deps[k].value, inst.deps[k];
            && (Cacheable(cls, c, t) ==> forall next :: Resolve(cls, c, next, t) == Outcome(c, next, Ok(d)))
            && (!Cacheable(cls, c, t) ==>
                  && PlanFor(cls, c, t).Make? && MadeBy(cls, c, PlanFor(cls, c, t).recipe, d, lo, hi)
                  && (PlanFor(cls, c, t).recipe.Build? ==> lo <= d.serial < hi))
  {
    var t, d := deps[k].value, inst.deps[k];
    RightIs(cls, c, t, d, lo, hi);
    if Cacheable(cls, c, t) {
      forall next ensures Resolve(cls, c, next, t) == Outcome(c, next, Ok(d)) {
        ProvidedIsResolved(cls, c, next, t, d);
      }
    }
    hide Resolve;
  }

  lemma RightIs(cls: Classes, c: Chain, t: Token, inst: Inst, lo: nat, hi: nat)
    requires c.Scope? && Right(cls, c, t, inst, lo, hi)
    ensures Cacheable(cls, c, t) ==> Provides(cls, c, t, inst)
    ensures !Cacheable(cls, c, t) ==>
              PlanFor(cls, c, t).Make? && MadeBy(cls, c, PlanFor(cls, c, t).recipe, inst, lo, hi)
  {
  }

  /** Two resolves of a transient that is built give two objects. */
  lemma TransientsDiffer(cls: Classes, c: Chain, next: nat, t: Token, c': Chain, next': nat)
    requires c.Scope? && c'.Scope? && !c.top.disposed && !c'.top.disposed
    requires !Holds(c.top.held, t) && !Holds(c'.top.held, t) && FindBinding(c, t) == FindBinding(c', t)
    requires FindBinding(c, t).Some? && FindBinding(c, t).value.lifetime.Transient?
    requires FindBinding(c, t).value.recipe.Build? && next' >= Resolve(cls, c, next, t).next
    requires Resolve(cls, c, next, t).out.Ok? && Resolve(cls, c', next', t).out.Ok?
    ensures Resolve(cls, c, next, t).out.value.serial < Resolve(cls, c', next', t).out.value.serial
  {
    ResolvesByLifetime(cls, c, next, t);
    ResolvesByLifetime(cls, c', next', t);
    hide Resolve, FindBinding;
  }
}
