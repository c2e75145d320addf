/**
 * What the dependency container computes, packages/container/src/container.ts.
 * A container and its ancestors form a chain of layers; a class is known by its
 * constructor's parameter tokens, and a factory by the tokens it resolves before
 * it builds.
 */
module ContainerSpec {
  import opened Common

  /** A class, symbol or string token, known only by its identity. */
  type Token = string

  /** The reflected constructor parameters of each class; `None` is a primitive or undefined type. */
  type Classes = map<Token, seq<Option<Token>>>

  datatype Lifetime = Singleton | Scoped | Transient

  /** An object, with its place in the order of construction and the objects it was built from. */
  datatype Inst = Inst(serial: nat, deps: seq<Inst>)

  datatype Recipe = Build(deps: seq<Option<Token>>) | Constant(inst: Inst)

  datatype Binding = Binding(recipe: Recipe, lifetime: Lifetime)

  /** One entry of the insertion-ordered instance map; `made` when `resolve` built it. */
  datatype Slot = Slot(token: Token, inst: Inst, made: bool)

  datatype Layer = Layer(held: seq<Slot>, bindings: map<Token, Binding>, resolving: set<Token>, disposed: bool)

  /** A container on top of its ancestors. */
  datatype Chain = NoParent | Scope(top: Layer, parent: Chain)

  datatype Error = Disposed | Circular(token: Token) | Unbound(token: Token) | BadParameter

  datatype Outcome<T> = Outcome(chain: Chain, next: nat, out: Result<T, Error>)

  // ---- the insertion-ordered map of instances ----

  function Index(held: seq<Slot>, t: Token): (i: nat)
    ensures i <= |held|
    ensures i < |held| ==> held[i].token == t
  {
    if |held| == 0 || held[0].token == t then 0 else 1 + Index(held[1..], t)
  }

  predicate Holds(held: seq<Slot>, t: Token) {
    Index(held, t) < |held|
  }

  /** Setting an existing key keeps its place. */
  function SetSlot(held: seq<Slot>, s: Slot): seq<Slot> {
    var i := Index(held, s.token);
    if i < |held| then held[i := s] else held + [s]
  }

  // ---- what a token needs ----

  function FindBinding(c: Chain, t: Token): Option<Binding> {
    match c
    case NoParent => None
    case Scope(top, parent) => if t in top.bindings then Some(top.bindings[t]) else FindBinding(parent, t)
  }

  datatype Plan = Delegate | Make(recipe: Recipe, cached: bool) | Missing

  /** How the top container provides a token it does not hold. */
  function PlanFor(cls: Classes, c: Chain, t: Token): Plan
    requires c.Scope?
    ensures PlanFor(cls, c, t).Delegate? ==> c.parent.Scope?
  {
    assert c.parent.NoParent? ==> FindBinding(c.parent, t) == None;
    match FindBinding(c, t)
    case Some(b) =>
      if t !in c.top.bindings && b.lifetime.Singleton? then Delegate
      else Make(b.recipe, !b.lifetime.Transient?)
    case None => if t in cls then Make(Build(cls[t]), true) else Missing
  }

  // ---- termination and framing ----

  function Names(cls: Classes, c: Chain): set<Token> {
    match c
    case NoParent => cls.Keys
    case Scope(top, parent) => top.bindings.Keys + Names(cls, parent)
  }

  /** How many names are not under construction in the top container. */
  function Pending(cls: Classes, c: Chain): nat
    requires c.Scope?
  {
    |Names(cls, c) - c.top.resolving|
  }

  function Depth(c: Chain): nat {
    match c
    case NoParent => 0
    case Scope(_, parent) => 1 + Depth(parent)
  }

  /** Only instances were added, at the end of each layer's map. */
  predicate Extends(c: Chain, c': Chain) {
    match (c, c')
    case (NoParent, NoParent) => true
    case (Scope(top, parent), Scope(top', parent')) =>
      && top'.bindings == top.bindings && top'.resolving == top.resolving && top'.disposed == top.disposed
      && top.held <= top'.held && Extends(parent, parent')
    case _ => false
  }

  lemma {:induction false} ExtendsFacts(cls: Classes, c: Chain, c': Chain)
    requires Extends(c, c')
    ensures Names(cls, c) == Names(cls, c') && Depth(c) == Depth(c')
    ensures c.Scope? ==> Pending(cls, c) == Pending(cls, c')
    ensures forall t :: FindBinding(c, t) == FindBinding(c', t)
  {
    if c.Scope? { ExtendsFacts(cls, c.parent, c'.parent); }
  }

  lemma {:induction false} ExtendsTrans(a: Chain, b: Chain, c: Chain)
    requires Extends(a, b) && Extends(b, c)
    ensures Extends(a, c)
  {
    if a.Scope? { ExtendsTrans(a.parent, b.parent, c.parent); }
  }

  lemma {:induction false} ExtendsRefl(c: Chain)
    ensures Extends(c, c)
  {
    if c.Scope? { ExtendsRefl(c.parent); }
  }

  lemma {:induction false} NamesBound(cls: Classes, c: Chain, t: Token)
    requires FindBinding(c, t).Some? || t in cls
    ensures t in Names(cls, c)
  {
    if c.Scope? && t !in c.top.bindings { NamesBound(cls, c.parent, t); }
  }

  // ---- resolving ----

  function Enter(c: Chain, t: Token): Chain
    requires c.Scope?
  {
    c.(top := c.top.(resolving := c.top.resolving + {t}))
  }

  /** No token under construction became held. */
  ghost predicate NoneFinished(c: Chain, c': Chain) {
    && c.Scope? && c'.Scope?
    && forall x :: x in c.top.resolving && Holds(c'.top.held, x) ==> Holds(c.top.held, x)
  }

  /** Leave the construction of `t`, holding its instance when it is cached. */
  function Finish(c: Chain, t: Token, cached: bool, made: bool, e: Outcome<Inst>): (r: Outcome<Inst>)
    requires c.Scope? && !Holds(c.top.held, t) && t !in c.top.resolving
    requires Extends(Enter(c, t), e.chain) && NoneFinished(Enter(c, t), e.chain)
    ensures Extends(c, r.chain) && NoneFinished(c, r.chain) && r.next == e.next
  {
    var top := e.chain.top;
    var held := if e.out.Ok? && cached then SetSlot(top.held, Slot(t, e.out.value, made)) else top.held;
    assert held == top.held || held == top.held + [Slot(t, e.out.value, made)];
    IndexAppend(top.held, Slot(t, if e.out.Ok? then e.out.value else Inst(0, []), made));
    Outcome(e.chain.(top := top.(resolving := c.top.resolving, held := held)), e.next, e.out)
  }

  lemma {:induction false} IndexAppend(held: seq<Slot>, s: Slot)
    ensures forall x {:trigger Index(held + [s], x)} ::
              Index(held + [s], x) == if Holds(held, x) then Index(held, x)
                                      else |held| + if x == s.token then 0 else 1
  {
    assert |held| > 0 ==> (held + [s])[1..] == held[1..] + [s];
    assert |held| == 0 ==> (held + [s])[1..] == [];
    if |held| > 0 { IndexAppend(held[1..], s); }
  }

  /** `resolve(t)` on the top container; `next` counts the objects constructed so far. */
  function Resolve(cls: Classes, c: Chain, next: nat, t: Token): (r: Outcome<Inst>)
    requires c.Scope?
    ensures Extends(c, r.chain) && NoneFinished(c, r.chain) && next <= r.next
    decreases Depth(c), Pending(cls, c), 1, 0
  {
    ExtendsRefl(c);
    if c.top.disposed then Outcome(c, next, Err(Disposed))
    else if Holds(c.top.held, t) then Outcome(c, next, Ok(c.top.held[Index(c.top.held, t)].inst))
    else
      match PlanFor(cls, c, t)
      case Delegate =>
        var r := Resolve(cls, c.parent, next, t);
        r.(chain := c.(parent := r.chain))
      case Missing => Outcome(c, next, Err(Unbound(t)))
      case Make(recipe, cached) =>
        if t in c.top.resolving then Outcome(c, next, Err(Circular(t)))
        else
          NamesBound(cls, c, t);
          Shrinks(cls, c, t);
          Finish(c, t, cached, recipe.Build?, Construct(cls, Enter(c, t), next, recipe))
  }

  lemma Shrinks(cls: Classes, c: Chain, t: Token)
    requires c.Scope? && t in Names(cls, c) && t !in c.top.resolving
    ensures Pending(cls, Enter(c, t)) < Pending(cls, c)
  {
    assert Names(cls, Enter(c, t)) - Enter(c, t).top.resolving == Names(cls, c) - c.top.resolving - {t};
  }

  /** Run a factory or a constructor: resolve what it needs in order, then build. */
  function Construct(cls: Classes, c: Chain, next: nat, recipe: Recipe): (r: Outcome<Inst>)
    requires c.Scope?
    ensures Extends(c, r.chain) && NoneFinished(c, r.chain) && next <= r.next
    decreases Depth(c), Pending(cls, c), 3, 0
  {
    match recipe
    case Constant(inst) => ExtendsRefl(c); Outcome(c, next, Ok(inst))
    case Build(deps) =>
      var r := ResolveAll(cls, c, next, deps, |deps|);
      match r.out
      case Ok(insts) => Outcome(r.chain, r.next + 1, Ok(Inst(r.next, insts)))
      case Err(e) => Outcome(r.chain, r.next, Err(e))
  }

  /** Resolve the first `n` dependencies in order, stopping at the first failure. */
  function ResolveAll(cls: Classes, c: Chain, next: nat, deps: seq<Option<Token>>, n: nat): (r: Outcome<seq<Inst>>)
    requires c.Scope? && n <= |deps|
    ensures Extends(c, r.chain) && NoneFinished(c, r.chain) && next <= r.next
    ensures r.out.Ok? ==> |r.out.value| == n
    decreases Depth(c), Pending(cls, c), 2, n
  {
    if n == 0 then ExtendsRefl(c); Outcome(c, next, Ok([]))
    else
      var r := ResolveAll(cls, c, next, deps, n - 1);
      if r.out.Err? then r
      else if deps[n - 1].None? then Outcome(r.chain, r.next, Err(BadParameter))
      else
        ExtendsFacts(cls, c, r.chain);
        var d := Resolve(cls, r.chain, r.next, deps[n - 1].value);
        ExtendsTrans(c, r.chain, d.chain);
        match d.out
        case Ok(inst) => Outcome(d.chain, d.next, Ok(r.out.value + [inst]))
        case Err(e) => Outcome(d.chain, d.next, Err(e))
  }
}
