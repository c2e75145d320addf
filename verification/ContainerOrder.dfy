/**
 * Two more promises of the container, over every run: repeated resolves give the
 * same instance, and disposal visits a dependent before what it depends on.
 */
module ContainerOrder {
  import opened Common
  import opened ContainerSpec
  import opened ContainerTheory

  // ---- the same instance every time ----

  /** `t` resolves to an instance that is held, here or in the ancestor it is delegated to. */
  ghost predicate Provides(cls: Classes, c: Chain, t: Token, inst: Inst) {
    && c.Scope? && !c.top.disposed
    && if Holds(c.top.held, t) then c.top.held[Index(c.top.held, t)].inst == inst
       else PlanFor(cls, c, t).Delegate? && Provides(cls, c.parent, t, inst)
  }

  /** Not a transient factory binding. */
  ghost predicate Cacheable(cls: Classes, c: Chain, t: Token)
    requires c.Scope?
  {
    Holds(c.top.held, t) || PlanFor(cls, c, t).Delegate? || (PlanFor(cls, c, t).Make? && PlanFor(cls, c, t).cached)
  }

  /** The parent builds and caches what a child delegates to it. */
  lemma DelegatedIsCacheable(cls: Classes, c: Chain, t: Token)
    requires c.Scope? && PlanFor(cls, c, t).Delegate?
    ensures c.parent.Scope? && Cacheable(cls, c.parent, t)
  {
  }

  lemma {:induction false} ResolvedIsProvided(cls: Classes, c: Chain, next: nat, t: Token)
    requires c.Scope? && Cacheable(cls, c, t) && Resolve(cls, c, next, t).out.Ok?
    ensures Provides(cls, Resolve(cls, c, next, t).chain, t, Resolve(cls, c, next, t).out.value)
    decreases Depth(c)
  {
    var r := Resolve(cls, c, next, t);
    ExtendsGrows(c, r.chain);
    GrowsPlan(cls, c, r.chain, t);
    if !Holds(c.top.held, t) {
      match PlanFor(cls, c, t) {
        case Delegate =>
          DelegatedIsCacheable(cls, c, t);
          ResolvedIsProvided(cls, c.parent, next, t);
        case Make(recipe, cached) =>
          var e := Construct(cls, Enter(c, t), next, recipe);
          FinishHolds(c, t, cached, recipe.Build?, e);
          IndexAppend(e.chain.top.held, Slot(t, e.out.value, recipe.Build?));
      }
    }
  }

  /** Each layer only gained tokens that it makes itself. */
  ghost predicate GainsMade(cls: Classes, c: Chain, c': Chain) {
    c.Scope? && c'.Scope? ==>
      && (forall x :: Holds(c'.top.held, x) && !Holds(c.top.held, x) ==> PlanFor(cls, c, x).Make?)
      && GainsMade(cls, c.parent, c'.parent)
  }

  lemma {:induction false} GainsRefl(cls: Classes, c: Chain)
    ensures GainsMade(cls, c, c)
  {
    if c.Scope? { GainsRefl(cls, c.parent); }
  }

  lemma {:induction false} GainsTrans(cls: Classes, a: Chain, b: Chain, c: Chain)
    requires Extends(a, b) && Extends(b, c) && GainsMade(cls, a, b) && GainsMade(cls, b, c)
    ensures GainsMade(cls, a, c)
  {
    if a.Scope? {
      ExtendsGrows(a, b);
      forall x | Holds(c.top.held, x) && !Holds(a.top.held, x) ensures PlanFor(cls, a, x).Make? {
        GrowsPlan(cls, a, b, x);
      }
      GainsTrans(cls, a.parent, b.parent, c.parent);
    }
  }

  lemma {:induction false} ResolveGainsMade(cls: Classes, c: Chain, next: nat, t: Token)
    requires c.Scope?
    ensures GainsMade(cls, c, Resolve(cls, c, next, t).chain)
    decreases Depth(c), Pending(cls, c), 1, 0
  {
    GainsRefl(cls, c);
    if !c.top.disposed && !Holds(c.top.held, t) {
      match PlanFor(cls, c, t) {
        case Missing =>
        case Delegate => ResolveGainsMade(cls, c.parent, next, t);
        case Make(recipe, cached) =>
          if t !in c.top.resolving {
            NamesBound(cls, c, t);
            Shrinks(cls, c, t);
            ConstructGainsMade(cls, Enter(c, t), next, recipe);
            FinishGainsMade(cls, c, t, cached, recipe.Build?, Construct(cls, Enter(c, t), next, recipe));
          }
      }
    }
  }

  lemma FinishGainsMade(cls: Classes, c: Chain, t: Token, cached: bool, made: bool, e: Outcome<Inst>)
    requires c.Scope? && !Holds(c.top.held, t) && t !in c.top.resolving && PlanFor(cls, c, t).Make?
    requires Extends(Enter(c, t), e.chain) && NoneFinished(Enter(c, t), e.chain)
    requires GainsMade(cls, Enter(c, t), e.chain)
    ensures GainsMade(cls, c, Finish(c, t, cached, made, e).chain)
  {
    FinishHolds(c, t, cached, made, e);
    EnterGrows(cls, c, t);
    forall x | Holds(e.chain.top.held, x) && !Holds(c.top.held, x) ensures PlanFor(cls, c, x).Make? {
      GrowsPlan(cls, c, Enter(c, t), x);
    }
  }

  lemma {:induction false} ConstructGainsMade(cls: Classes, c: Chain, next: nat, recipe: Recipe)
    requires c.Scope?
    ensures GainsMade(cls, c, Construct(cls, c, next, recipe).chain)
    decreases Depth(c), Pending(cls, c), 3, 0
  {
    match recipe {
      case Constant(_) => GainsRefl(cls, c);
      case Build(deps) => AllGainMade(cls, c, next, deps, |deps|);
    }
  }

  lemma {:induction false} AllGainMade(cls: Classes, c: Chain, next: nat, deps: seq<Option<Token>>, n: nat)
    requires c.Scope? && n <= |deps|
    ensures GainsMade(cls, c, ResolveAll(cls, c, next, deps, n).chain)
    decreases Depth(c), Pending(cls, c), 2, n, 1
  {
    if n == 0 {
      GainsRefl(cls, c);
    } else {
      NextGainsMade(cls, c, next, deps, n);
    }
  }

  lemma {:induction false} NextGainsMade(cls: Classes, c: Chain, next: nat, deps: seq<Option<Token>>, n: nat)
    requires c.Scope? && 1 <= n <= |deps|
    ensures GainsMade(cls, c, ResolveAll(cls, c, next, deps, n).chain)
    decreases Depth(c), Pending(cls, c), 2, n, 0
  {
    hide *;
    var r, more, d := ResolveAllStep(cls, c, next, deps, n);
    AllGainMade(cls, c, next, deps, n - 1);
    if more {
      ExtendsFacts(cls, c, r.chain);
      ResolveGainsMade(cls, r.chain, r.next, deps[n - 1].value);
      GainsTrans(cls, c, r.chain, d.chain);
    }
  }

  lemma {:induction false} ProvidedStays(cls: Classes, c: Chain, c': Chain, t: Token, inst: Inst)
    requires Provides(cls, c, t, inst) && Extends(c, c') && GainsMade(cls, c, c')
    ensures Provides(cls, c', t, inst)
    decreases Depth(c)
  {
    ExtendsGrows(c, c');
    GrowsPlan(cls, c, c', t);
    if Holds(c.top.held, t) {
      HoldsPrefix(c.top.held, c'.top.held, t);
    } else {
      ProvidedStays(cls, c.parent, c'.parent, t, inst);
    }
  }

  lemma {:induction false} ProvidedIsResolved(cls: Classes, c: Chain, next: nat, t: Token, inst: Inst)
    requires Provides(cls, c, t, inst)
    ensures Resolve(cls, c, next, t) == Outcome(c, next, Ok(inst))
    decreases Depth(c)
  {
    if !Holds(c.top.held, t) { ProvidedIsResolved(cls, c.parent, next, t, inst); }
  }

  /** The container after resolving each of `us` in turn, whatever comes of it. */
  function ResolveEach(cls: Classes, c: Chain, next: nat, us: seq<Token>): (r: (Chain, nat))
    requires c.Scope?
    ensures r.0.Scope?
  {
    if us == [] then (c, next)
    else
      var before := ResolveEach(cls, c, next, us[..|us| - 1]);
      var r := Resolve(cls, before.0, before.1, us[|us| - 1]);
      (r.chain, r.next)
  }

  /**
   * Once a non-transient token was resolved, resolving it again gives the same
   * instance and changes nothing, whatever was resolved in between.
   */
  lemma {:induction false} SameInstance(cls: Classes, c: Chain, next: nat, t: Token, us: seq<Token>)
    requires c.Scope? && Cacheable(cls, c, t) && Resolve(cls, c, next, t).out.Ok?
    ensures var r := Resolve(cls, c, next, t); var (c', next') := ResolveEach(cls, r.chain, r.next, us);
            Provides(cls, c', t, r.out.value) && Resolve(cls, c', next', t) == Outcome(c', next', r.out)
  {
    var r := Resolve(cls, c, next, t);
    var (c', next') := ResolveEach(cls, r.chain, r.next, us);
    if us == [] {
      ResolvedIsProvided(cls, c, next, t);
    } else {
      SameInstance(cls, c, next, t, us[..|us| - 1]);
      var b := ResolveEach(cls, r.chain, r.next, us[..|us| - 1]);
      ResolveGainsMade(cls, b.0, b.1, us[|us| - 1]);
      ProvidedStays(cls, b.0, c', t, r.out.value);
    }
    ProvidedIsResolved(cls, c', next', t, r.out.value);
  }

  // ---- the order of construction ----

  /** Every object an instance was built from was constructed before it. */
  ghost predicate Older(i: Inst) {
    forall d :: d in i.deps ==> d.serial < i.serial && Older(d)
  }

  /** `d` went into `i`, directly or through another object. */
  ghost predicate Uses(i: Inst, d: Inst) {
    d in i.deps || exists k :: k in i.deps && Uses(k, d)
  }

  lemma {:induction false} UsedIsOlder(i: Inst, d: Inst)
    requires Older(i) && Uses(i, d)
    ensures d.serial < i.serial
  {
    if d !in i.deps {
      var k :| k in i.deps && Uses(k, d);
      UsedIsOlder(k, d);
    }
  }

  /** Built instances are held in order of construction, all before `next`. */
  ghost predicate Ordered(held: seq<Slot>, next: nat) {
    && (forall k :: 0 <= k < |held| ==> Older(held[k].inst) && held[k].inst.serial < next)
    && (forall j, k :: 0 <= j < k < |held| && held[j].made && held[k].made ==>
          held[j].inst.serial < held[k].inst.serial)
  }

  ghost predicate GoodBindings(bindings: map<Token, Binding>, next: nat) {
    forall t :: t in bindings && bindings[t].recipe.Constant? ==>
      Older(bindings[t].recipe.inst) && bindings[t].recipe.inst.serial < next
  }

  ghost predicate AllOrdered(c: Chain, next: nat) {
    c.Scope? ==> Ordered(c.top.held, next) && GoodBindings(c.top.bindings, next) && AllOrdered(c.parent, next)
  }

  lemma {:induction false} LaterOrdered(c: Chain, next: nat, later: nat)
    requires AllOrdered(c, next) && next <= later
    ensures AllOrdered(c, later)
  {
    if c.Scope? { LaterOrdered(c.parent, next, later); }
  }

  lemma {:induction false} FoundIsGood(c: Chain, next: nat, t: Token)
    requires AllOrdered(c, next) && FindBinding(c, t).Some? && FindBinding(c, t).value.recipe.Constant?
    ensures Older(FindBinding(c, t).value.recipe.inst) && FindBinding(c, t).value.recipe.inst.serial < next
  {
    if t !in c.top.bindings { FoundIsGood(c.parent, next, t); }
  }

  ghost predicate GoodInst(i: Inst, next: nat) {
    Older(i) && i.serial < next
  }

  lemma {:induction false} ResolveKeepsOrder(cls: Classes, c: Chain, next: nat, t: Token)
    requires c.Scope? && AllOrdered(c, next)
    ensures var r := Resolve(cls, c, next, t);
            AllOrdered(r.chain, r.next) && (r.out.Ok? ==> GoodInst(r.out.value, r.next))
    decreases Depth(c), Pending(cls, c), 1, 0
  {
    if !c.top.disposed && !Holds(c.top.held, t) {
      match PlanFor(cls, c, t) {
        case Missing =>
        case Delegate =>
          ResolveKeepsOrder(cls, c.parent, next, t);
          LaterOrdered(c, next, Resolve(cls, c.parent, next, t).next);
        case Make(recipe, cached) =>
          if t !in c.top.resolving {
            NamesBound(cls, c, t);
            Shrinks(cls, c, t);
            if recipe.Constant? { FoundIsGood(c, next, t); }
            ConstructKeepsOrder(cls, Enter(c, t), next, recipe);
            FinishKeepsOrder(c, t, cached, recipe.Build?, Construct(cls, Enter(c, t), next, recipe));
          }
      }
    }
  }

  /** The construction of one object comes after everything it left held. */
  ghost predicate BuiltLast(e: Outcome<Inst>, made: bool) {
    e.out.Ok? ==> GoodInst(e.out.value, e.next) &&
                  (made ==> e.chain.Scope? && Ordered(e.chain.top.held, e.out.value.serial))
  }

  lemma FinishKeepsOrder(c: Chain, t: Token, cached: bool, made: bool, e: Outcome<Inst>)
    requires c.Scope? && !Holds(c.top.held, t) && t !in c.top.resolving
    requires Extends(Enter(c, t), e.chain) && NoneFinished(Enter(c, t), e.chain)
    requires AllOrdered(e.chain, e.next) && BuiltLast(e, made)
    ensures AllOrdered(Finish(c, t, cached, made, e).chain, e.next)
  {
    FinishHolds(c, t, cached, made, e);
  }

  lemma {:induction false} ConstructKeepsOrder(cls: Classes, c: Chain, next: nat, recipe: Recipe)
    requires c.Scope? && AllOrdered(c, next)
    requires recipe.Constant? ==> GoodInst(recipe.inst, next)
    ensures var e := Construct(cls, c, next, recipe); AllOrdered(e.chain, e.next) && BuiltLast(e, recipe.Build?)
    decreases Depth(c), Pending(cls, c), 3, 0
  {
    match recipe {
      case Constant(_) =>
      case Build(deps) =>
        AllKeepOrder(cls, c, next, deps, |deps|);
        var r := ResolveAll(cls, c, next, deps, |deps|);
        if r.out.Ok? { LaterOrdered(r.chain, r.next, r.next + 1); }
    }
  }

  lemma {:induction false} AllKeepOrder(cls: Classes, c: Chain, next: nat, deps: seq<Option<Token>>, n: nat)
    requires c.Scope? && n <= |deps| && AllOrdered(c, next)
    ensures var r := ResolveAll(cls, c, next, deps, n);
            AllOrdered(r.chain, r.next) && (r.out.Ok? ==> forall i :: i in r.out.value ==> GoodInst(i, r.next))
    decreases Depth(c), Pending(cls, c), 2, n, 1
  {
    if n > 0 { NextKeepsOrder(cls, c, next, deps, n); }
  }

  lemma {:induction false} NextKeepsOrder(cls: Classes, c: Chain, next: nat, deps: seq<Option<Token>>, n: nat)
    requires c.Scope? && 1 <= n <= |deps| && AllOrdered(c, next)
    ensures var r := ResolveAll(cls, c, next, deps, n);
            AllOrdered(r.chain, r.next) && (r.out.Ok? ==> forall i :: i in r.out.value ==> GoodInst(i, r.next))
    decreases Depth(c), Pending(cls, c), 2, n, 0
  {
    hide *;
    var r, more, d := ResolveAllStep(cls, c, next, deps, n);
    AllKeepOrder(cls, c, next, deps, n - 1);
    if more {
      ExtendsFacts(cls, c, r.chain);
      ResolveKeepsOrder(cls, r.chain, r.next, deps[n - 1].value);
      if d.out.Ok? { GoodLater(r.out.value, r.next, d.next); }
    }
  }

  lemma GoodLater(insts: seq<Inst>, next: nat, later: nat)
    requires next <= later && forall i :: i in insts ==> GoodInst(i, next)
    ensures forall i :: i in insts ==> GoodInst(i, later)
  {
  }

  // ---- whole runs ----

  /**
   * What can happen to a container: its own operations, the same to its parent, and
   * constructions elsewhere (the caller's objects, sibling scopes).
   */
  datatype Op =
    | Register(token: Token, inst: Inst)
    | RegisterFactory(token: Token, deps: seq<Token>, lifetime: Lifetime)
    | ResolveToken(token: Token)
    | CreateScope
    | Reset
    | Dispose
    | InParent(op: Op)
    | Elsewhere

  const NEW_LAYER := Layer([], map[], {}, false)

  function DropSlot(held: seq<Slot>, t: Token): seq<Slot> {
    var i := Index(held, t);
    if i < |held| then held[..i] + held[i + 1..] else held
  }

  function RegisterIn(l: Layer, t: Token, inst: Inst): Layer {
    l.(held := SetSlot(l.held, Slot(t, inst, false)), bindings := l.bindings[t := Binding(Constant(inst), Singleton)])
  }

  function RegisterFactoryIn(l: Layer, t: Token, deps: seq<Token>, lifetime: Lifetime): Layer {
    l.(held := DropSlot(l.held, t), bindings := l.bindings[t := Binding(Build(Somes(deps)), lifetime)])
  }

  function Somes(ts: seq<Token>): (r: seq<Option<Token>>)
    ensures None !in r
  {
    if |ts| == 0 then [] else [Some(ts[0])] + Somes(ts[1..])
  }

  /** A disposed container refuses every operation but `dispose` itself. */
  function Apply(cls: Classes, c: Chain, next: nat, op: Op): (r: (Chain, nat))
    requires c.Scope?
    ensures r.0.Scope? && next <= r.1
  {
    match op
    case Elsewhere => (c, next + 1)
    case InParent(o) =>
      if c.parent.NoParent? || o.CreateScope? then (c, next)
      else
        var r := Apply(cls, c.parent, next, o);
        (c.(parent := r.0), r.1)
    case Dispose => (c.(top := DisposeLayer(c.top)), next)
    case Register(t, inst) => (if c.top.disposed then c else c.(top := RegisterIn(c.top, t, inst)), next)
    case RegisterFactory(t, deps, lifetime) =>
      (if c.top.disposed then c else c.(top := RegisterFactoryIn(c.top, t, deps, lifetime)), next)
    case ResolveToken(t) => var r := Resolve(cls, c, next, t); (r.chain, r.next)
    case CreateScope => (if c.top.disposed then c else Scope(NEW_LAYER, c), next)
    case Reset => (if c.top.disposed then c else c.(top := c.top.(held := [], resolving := {})), next)
  }

  function DisposeLayer(l: Layer): Layer {
    if l.disposed then l else Layer([], l.bindings, {}, true)
  }

  /** An object that is registered already exists. */
  ghost predicate Exists(op: Op, next: nat) {
    match op
    case Register(_, inst) => GoodInst(inst, next)
    case InParent(o) => Exists(o, next)
    case _ => true
  }

  function RunFrom(cls: Classes, c: Chain, next: nat, ops: seq<Op>): (r: (Chain, nat))
    requires c.Scope?
    ensures r.0.Scope?
  {
    if ops == [] then (c, next)
    else
      var b := RunFrom(cls, c, next, ops[..|ops| - 1]);
      Apply(cls, b.0, b.1, ops[|ops| - 1])
  }

  ghost predicate RunExists(cls: Classes, c: Chain, next: nat, ops: seq<Op>)
    requires c.Scope?
  {
    ops == [] ||
    (RunExists(cls, c, next, ops[..|ops| - 1]) &&
     Exists(ops[|ops| - 1], RunFrom(cls, c, next, ops[..|ops| - 1]).1))
  }

  lemma SetSlotOrdered(held: seq<Slot>, s: Slot, next: nat)
    requires Ordered(held, next) && GoodInst(s.inst, next) && !s.made
    ensures Ordered(SetSlot(held, s), next)
  {
  }

  lemma DropSlotOrdered(held: seq<Slot>, t: Token, next: nat)
    requires Ordered(held, next)
    ensures Ordered(DropSlot(held, t), next)
  {
    var i := Index(held, t);
    var d := DropSlot(held, t);
    forall k | 0 <= k < |d| ensures d[k] == held[if k < i then k else k + 1] {}
  }

  /** Every operation keeps every layer ordered and, between calls, nothing under construction. */
  lemma {:induction false} ApplyKeeps(cls: Classes, c: Chain, next: nat, op: Op)
    requires c.Scope? && AllOrdered(c, next) && Idle(c) && Exists(op, next)
    ensures AllOrdered(Apply(cls, c, next, op).0, Apply(cls, c, next, op).1) && Idle(Apply(cls, c, next, op).0)
  {
    LaterOrdered(c, next, next + 1);
    match op {
      case InParent(o) =>
        if c.parent.Scope? {
          ApplyKeeps(cls, c.parent, next, o);
          LaterOrdered(c, next, Apply(cls, c.parent, next, o).1);
        }
      case Register(t, inst) => SetSlotOrdered(c.top.held, Slot(t, inst, false), next);
      case RegisterFactory(t, _, _) => DropSlotOrdered(c.top.held, t, next);
      case ResolveToken(t) =>
        ResolveKeepsOrder(cls, c, next, t);
        IdleExtends(c, Resolve(cls, c, next, t).chain);
      case _ =>
    }
  }

  lemma {:induction false} ReachableIsOrdered(cls: Classes, ops: seq<Op>)
    requires RunExists(cls, Scope(NEW_LAYER, NoParent), 0, ops)
    ensures var (c, next) := RunFrom(cls, Scope(NEW_LAYER, NoParent), 0, ops); AllOrdered(c, next) && Idle(c)
  {
    if ops != [] {
      var b := RunFrom(cls, Scope(NEW_LAYER, NoParent), 0, ops[..|ops| - 1]);
      ReachableIsOrdered(cls, ops[..|ops| - 1]);
      ApplyKeeps(cls, b.0, b.1, ops[|ops| - 1]);
    }
  }

  /** What `dispose` visits, in order: the held instances, last first. */
  function DisposalOrder(held: seq<Slot>): (r: seq<Inst>)
    ensures |r| == |held|
  {
    if |held| == 0 then [] else [held[|held| - 1].inst] + DisposalOrder(held[..|held| - 1])
  }

  lemma {:induction false} DisposalAt(held: seq<Slot>, k: nat)
    requires k < |held|
    ensures DisposalOrder(held)[|held| - 1 - k] == held[k].inst
  {
    if k < |held| - 1 { DisposalAt(held[..|held| - 1], k); }
  }

  /**
   * In every reachable container, disposing it visits a built instance before any
   * built instance it uses, directly or through others.
   */
  lemma DependentsFirst(cls: Classes, ops: seq<Op>, user: nat, used: nat)
    requires RunExists(cls, Scope(NEW_LAYER, NoParent), 0, ops)
    requires var held := RunFrom(cls, Scope(NEW_LAYER, NoParent), 0, ops).0.top.held;
             && user < |held| && used < |held| && held[user].made && held[used].made
             && Uses(held[user].inst, held[used].inst)
    ensures var held := RunFrom(cls, Scope(NEW_LAYER, NoParent), 0, ops).0.top.held;
            var visits := DisposalOrder(held);
            && used < user
            && |held| - 1 - user < |held| - 1 - used
            && visits[|held| - 1 - user] == held[user].inst && visits[|held| - 1 - used] == held[used].inst
  {
    hide RunFrom, DisposalOrder, Uses, RunExists;
    ReachableIsOrdered(cls, ops);
    var (c, next) := RunFrom(cls, Scope(NEW_LAYER, NoParent), 0, ops);
    BuiltBefore(c.top.held, next, user, used);
  }

  lemma BuiltBefore(held: seq<Slot>, next: nat, user: nat, used: nat)
    requires Ordered(held, next) && user < |held| && used < |held| && held[user].made && held[used].made
    requires Uses(held[user].inst, held[used].inst)
    ensures used < user
    ensures DisposalOrder(held)[|held| - 1 - user] == held[user].inst
    ensures DisposalOrder(held)[|held| - 1 - used] == held[used].inst
  {
    UsedIsOlder(held[user].inst, held[used].inst);
    DisposalAt(held, user);
    DisposalAt(held, used);
  }
}
