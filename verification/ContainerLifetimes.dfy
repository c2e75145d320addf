/**
 * What the container's other operations mean for the resolves after them, and, over
 * every run, how each instance that is held came to be built.
 */
module ContainerLifetimes {
  import opened Common
  import opened ContainerSpec
  import opened ContainerTheory
  import opened ContainerOrder
  import opened ContainerArguments

  // ---- tokens are held once ----

  ghost predicate AllUnique(c: Chain) {
    c.Scope? ==> Unique(c.top.held) && AllUnique(c.parent)
  }

  lemma {:induction false} UniqueLater(cls: Classes, c: Chain, c': Chain)
    requires AllUnique(c) && Later(cls, c, c')
    ensures AllUnique(c')
  {
    if c.Scope? { UniqueLater(cls, c.parent, c'.parent); }
  }

  lemma SetSlotUnique(held: seq<Slot>, s: Slot)
    requires Unique(held)
    ensures Unique(SetSlot(held, s))
    ensures Holds(SetSlot(held, s), s.token) && SetSlot(held, s)[Index(SetSlot(held, s), s.token)] == s
  {
    NotHeld(held, s.token);
    IndexIsOnly(SetSlot(held, s), s.token, Index(held, s.token));
  }

  lemma {:induction false} IndexIsOnly(held: seq<Slot>, t: Token, i: nat)
    requires i < |held| && held[i].token == t && Unique(held)
    ensures Index(held, t) == i
  {
    if i > 0 {
      assert held[0].token != t;
      assert forall k :: 0 <= k < |held| - 1 ==> held[1..][k] == held[k + 1];
      IndexIsOnly(held[1..], t, i - 1);
    }
  }

  lemma DropSlotUnique(held: seq<Slot>, t: Token)
    requires Unique(held)
    ensures Unique(DropSlot(held, t)) && !Holds(DropSlot(held, t), t)
  {
    var i, d := Index(held, t), DropSlot(held, t);
    assert forall k :: 0 <= k < |d| ==> d[k] == held[if k < i then k else k + 1];
    NotHeld(held, t);
    NotHeld(d, t);
  }

  lemma {:induction false} ApplyUnique(cls: Classes, c: Chain, next: nat, op: Op)
    requires c.Scope? && AllUnique(c)
    ensures AllUnique(Apply(cls, c, next, op).0)
  {
    match op {
      case InParent(o) => if c.parent.Scope? { ApplyUnique(cls, c.parent, next, o); }
      case Register(t, inst) => SetSlotUnique(c.top.held, Slot(t, inst, false));
      case RegisterFactory(t, _, _) => DropSlotUnique(c.top.held, t);
      case ResolveToken(t) =>
        ResolveIsRight(cls, c, next, t);
        UniqueLater(cls, c, Resolve(cls, c, next, t).chain);
      case _ =>
    }
    hide Resolve;
  }

  lemma {:induction false} RunUnique(cls: Classes, ops: seq<Op>)
    ensures AllUnique(RunFrom(cls, Scope(NEW_LAYER, NoParent), 0, ops).0)
  {
    if ops != [] {
      var b := RunFrom(cls, Scope(NEW_LAYER, NoParent), 0, ops[..|ops| - 1]);
      RunUnique(cls, ops[..|ops| - 1]);
      ApplyUnique(cls, b.0, b.1, ops[|ops| - 1]);
    }
  }

  // ---- registration, reset and disposal, by the resolves after them ----

  /** A registered instance is what its token resolves to, at once and without building anything. */
  lemma RegisterGives(cls: Classes, c: Chain, next: nat, t: Token, inst: Inst)
    requires c.Scope? && AllUnique(c) && !c.top.disposed
    ensures var d := Apply(cls, c, next, Register(t, inst)).0;
            forall n :: Resolve(cls, d, n, t) == Outcome(d, n, Ok(inst))
  {
    SetSlotUnique(c.top.held, Slot(t, inst, false));
    var d := Apply(cls, c, next, Register(t, inst)).0;
    assert Provides(cls, d, t, inst);
    forall n ensures Resolve(cls, d, n, t) == Outcome(d, n, Ok(inst)) { ProvidedIsResolved(cls, d, n, t, inst); }
    hide Resolve;
  }

  /**
   * After a factory is registered its token resolves to a new object, built by that factory
   * whatever was held before, and kept unless the factory is transient.
   */
  lemma FactoryReplaces(cls: Classes, c: Chain, next: nat, t: Token, deps: seq<Token>, lifetime: Lifetime, n: nat)
    requires c.Scope? && AllUnique(c) && !c.top.disposed
    requires Resolve(cls, Apply(cls, c, next, RegisterFactory(t, deps, lifetime)).0, n, t).out.Ok?
    ensures var r := Resolve(cls, Apply(cls, c, next, RegisterFactory(t, deps, lifetime)).0, n, t);
            && r.chain.Scope? && BuiltFrom(cls, r.chain, Somes(deps), r.out.value, n, r.next)
            && (if lifetime.Transient? then !Holds(r.chain.top.held, t) else KeepsHere(r.chain, t, r.out.value))
    ensures |Somes(deps)| == |deps| && forall k :: 0 <= k < |deps| ==> Somes(deps)[k] == Some(deps[k])
  {
    DropSlotUnique(c.top.held, t);
    SomesAt(deps);
    ResolvesByLifetime(cls, Apply(cls, c, next, RegisterFactory(t, deps, lifetime)).0, n, t);
    hide Resolve, BuiltFrom, DropSlot;
  }

  lemma {:induction false} SomesAt(ts: seq<Token>)
    ensures |Somes(ts)| == |ts| && forall k :: 0 <= k < |ts| ==> Somes(ts)[k] == Some(ts[k])
  {
    if |ts| > 0 { SomesAt(ts[1..]); }
  }

  /** A reset container holds nothing and keeps its bindings, so everything is built again. */
  lemma ResetForgets(cls: Classes, c: Chain, next: nat, t: Token)
    requires c.Scope? && !c.top.disposed
    ensures var d := Apply(cls, c, next, Reset).0;
            && d.Scope? && !d.top.disposed && !Holds(d.top.held, t) && FindBinding(d, t) == FindBinding(c, t)
            && d.parent == c.parent
  {
  }

  /** A disposed container holds nothing and refuses every resolve; its parent does not notice. */
  lemma DisposedRefuses(cls: Classes, c: Chain, next: nat, t: Token, n: nat)
    requires c.Scope?
    ensures var d := Apply(cls, c, next, Dispose).0;
            && Resolve(cls, d, n, t) == Outcome(d, n, Err(Disposed)) && d.parent == c.parent
            && (!c.top.disposed ==> d.top.held == [])
  {
  }

  /** A new scope holds nothing and sees every binding; a singleton bound above it is its parent's. */
  lemma ScopeInherits(cls: Classes, c: Chain, next: nat, t: Token, n: nat)
    requires c.Scope? && !c.top.disposed
    ensures var d := Apply(cls, c, next, CreateScope).0;
            && d.Scope? && d.parent == c && d.top.held == [] && FindBinding(d, t) == FindBinding(c, t)
            && (FindBinding(c, t).Some? && FindBinding(c, t).value.lifetime.Singleton? ==>
                  Resolve(cls, d, n, t).out == Resolve(cls, c, n, t).out)
  {
    var d := Apply(cls, c, next, CreateScope).0;
    PlanIs(cls, d, t);
  }

  // ---- over every run, how each held instance was built ----

  /** The chain from depth `d` down. */
  function LayerAt(c: Chain, d: nat): Chain
    requires 1 <= d <= Depth(c)
    ensures LayerAt(c, d).Scope? && Depth(LayerAt(c, d)) == d
  {
    if d == Depth(c) then c else LayerAt(c.parent, d)
  }

  /** What one operation adds to any layer it finds was built during that operation. */
  lemma {:induction false} ApplyBuilds(cls: Classes, c: Chain, next: nat, op: Op, d: nat, s: Slot)
    requires c.Scope? && 1 <= d <= Depth(Apply(cls, c, next, op).0)
    requires s in LayerAt(Apply(cls, c, next, op).0, d).top.held && s.made
    requires d <= Depth(c) ==> s !in LayerAt(c, d).top.held
    ensures var r := Apply(cls, c, next, op); d <= Depth(c) && SlotBuilt(cls, LayerAt(r.0, d), s, next, r.1)
  {
    var r := Apply(cls, c, next, op);
    match op {
      case InParent(o) =>
        if c.parent.Scope? && !o.CreateScope? {
          InParentDepth(cls, c, next, o);
          if d < Depth(c) { ApplyBuilds(cls, c.parent, next, o, d, s); }
        }
      case ResolveToken(t) =>
        ResolveIsRight(cls, c, next, t);
        LaterGrows(cls, c, r.0);
        SameDepth(c, r.0);
        NewAt(cls, c, r.0, next, r.1, d, s);
      case Register(t, inst) => if d == Depth(c) { SetSlotAdds(c.top.held, Slot(t, inst, false), s); }
      case RegisterFactory(t, _, _) => if d == Depth(c) { DropSlotAdds(c.top.held, t, s); }
      case CreateScope => ScopeDepth(c, d);
      case _ =>
    }
    hide Resolve, SlotBuilt;
  }

  lemma ScopeDepth(c: Chain, d: nat)
    requires c.Scope? && 1 <= d <= Depth(c) + 1
    ensures d == Depth(c) + 1 ==> LayerAt(Scope(NEW_LAYER, c), d).top.held == []
    ensures d <= Depth(c) ==> LayerAt(Scope(NEW_LAYER, c), d) == LayerAt(c, d)
  {
  }

  lemma InParentDepth(cls: Classes, c: Chain, next: nat, o: Op)
    requires c.Scope? && c.parent.Scope? && !o.CreateScope?
    ensures Depth(Apply(cls, c.parent, next, o).0) == Depth(c.parent)
  {
    ApplyDepth(cls, c.parent, next, o);
  }

  lemma {:induction false} ApplyDepth(cls: Classes, c: Chain, next: nat, op: Op)
    requires c.Scope?
    ensures var d := Depth(Apply(cls, c, next, op).0); Depth(c) <= d && (!op.CreateScope? ==> d == Depth(c))
  {
    match op {
      case InParent(o) => if c.parent.Scope? { ApplyDepth(cls, c.parent, next, o); }
      case ResolveToken(t) =>
        ExtendsGrows(c, Resolve(cls, c, next, t).chain);
        SameDepth(c, Resolve(cls, c, next, t).chain);
      case _ =>
    }
    hide Resolve;
  }

  lemma SetSlotAdds(held: seq<Slot>, added: Slot, s: Slot)
    requires s in SetSlot(held, added) && s !in held
    ensures s == added
  {
  }

  lemma DropSlotAdds(held: seq<Slot>, t: Token, s: Slot)
    requires s in DropSlot(held, t)
    ensures s in held
  {
  }

  lemma {:induction false} NewAt(cls: Classes, c: Chain, c': Chain, lo: nat, hi: nat, d: nat, s: Slot)
    requires NewBuilt(cls, c, c', lo, hi) && Depth(c) == Depth(c') && 1 <= d <= Depth(c)
    requires s in LayerAt(c', d).top.held && s.made && s !in LayerAt(c, d).top.held
    ensures SlotBuilt(cls, LayerAt(c', d), s, lo, hi)
    decreases c
  {
    if d < Depth(c) { NewAt(cls, c.parent, c'.parent, lo, hi, d, s); }
  }

  /** The slot of layer `d` was built by operation `n` of the run. */
  ghost predicate BuiltBy(cls: Classes, ops: seq<Op>, d: nat, s: Slot, n: nat) {
    n < |ops| &&
    var before := RunFrom(cls, Scope(NEW_LAYER, NoParent), 0, ops[..n]);
    var after := RunFrom(cls, Scope(NEW_LAYER, NoParent), 0, ops[..n + 1]);
    1 <= d <= Depth(after.0) && SlotBuilt(cls, LayerAt(after.0, d), s, before.1, after.1)
  }

  /**
   * In every reachable chain, whatever a layer holds that `resolve` made was built by one of
   * the operations of the run: by the recipe its token had then, with the right argument for
   * every parameter.
   */
  lemma {:induction false} HeldWereBuilt(cls: Classes, ops: seq<Op>, d: nat, s: Slot)
    requires var c := RunFrom(cls, Scope(NEW_LAYER, NoParent), 0, ops).0;
             1 <= d <= Depth(c) && s in LayerAt(c, d).top.held && s.made
    ensures exists n: nat :: BuiltBy(cls, ops, d, s, n)
  {
    if ops != [] {
      var before, op := ops[..|ops| - 1], ops[|ops| - 1];
      var b := RunFrom(cls, Scope(NEW_LAYER, NoParent), 0, before);
      assert ops[..|ops|] == ops;
      if d <= Depth(b.0) && s in LayerAt(b.0, d).top.held {
        HeldWereBuilt(cls, before, d, s);
        var n: nat :| BuiltBy(cls, before, d, s, n);
        assert before[..n] == ops[..n] && before[..n + 1] == ops[..n + 1];
        assert BuiltBy(cls, ops, d, s, n);
      } else {
        ApplyBuilds(cls, b.0, b.1, op, d, s);
        assert BuiltBy(cls, ops, d, s, |ops| - 1);
      }
    }
  }
}
