/**
 * The container itself, packages/container/src/container.ts: an object whose maps
 * and sets are updated in place while it resolves, with a link to its parent.
 * `View` is the chain of layers it stands for in `ContainerSpec`.
 */
module Container {
  import opened Common
  import opened ContainerSpec
  import opened ContainerOrder
  import opened ContainerTheory

  /** Counts the objects that were constructed, by anyone. */
  class Objects {
    var built: nat
    constructor () ensures built == 0 { built := 0; }
  }

  class Container {
    const parent: Container?
    ghost const chain: set<Container>  // this container and its ancestors
    var singletons: seq<Slot>          // in insertion order
    var bindings: map<Token, Binding>
    var resolving: set<Token>
    var disposed: bool

    ghost predicate Rooted()
      decreases chain
    {
      && this in chain
      && (parent == null ==> chain == {this})
      && (parent != null ==> this !in parent.chain && chain == {this} + parent.chain && parent.Rooted())
    }

    ghost function Top(): Layer
      reads this
    {
      Layer(singletons, bindings, resolving, disposed)
    }

    ghost function View(): (c: Chain)
      requires Rooted()
      reads chain
      ensures c.Scope? && c.top == Top()
      decreases chain
    {
      Scope(Top(), if parent == null then NoParent else parent.View())
    }

    constructor (parent: Container?)
      requires parent != null ==> parent.Rooted()
      ensures Rooted() && this.parent == parent && Top() == NEW_LAYER
      ensures parent == null ==> chain == {this}
      ensures parent != null ==> chain == {this} + parent.chain && View().parent == parent.View()
    {
      this.parent := parent;
      chain := {this} + if parent == null then {} else parent.chain;
      singletons, bindings, resolving, disposed := [], map[], {}, false;
    }

    /** Register a supplied object: it is held and bound. */
    method Register(token: Token, inst: Inst) returns (out: Result<(), Error>)
      requires Rooted()
      modifies this
      ensures out == if old(disposed) then Err(Disposed) else Ok(())
      ensures Top() == if old(disposed) then old(Top()) else RegisterIn(old(Top()), token, inst)
    {
      if disposed {
        return Err(Disposed);
      }
      singletons := SetSlot(singletons, Slot(token, inst, false));
      bindings := bindings[token := Binding(Constant(inst), Singleton)];
      return Ok(());
    }

    method RegisterFactory(token: Token, deps: seq<Token>, lifetime: Lifetime) returns (out: Result<(), Error>)
      requires Rooted()
      modifies this
      ensures out == if old(disposed) then Err(Disposed) else Ok(())
      ensures Top() == if old(disposed) then old(Top()) else RegisterFactoryIn(old(Top()), token, deps, lifetime)
    {
      if disposed {
        return Err(Disposed);
      }
      bindings := bindings[token := Binding(Build(Somes(deps)), lifetime)];
      singletons := DropSlot(singletons, token);
      return Ok(());
    }

    method FindBindingOf(token: Token) returns (b: Option<Binding>)
      requires Rooted()
      ensures b == FindBinding(View(), token)
      decreases chain
    {
      if token in bindings {
        return Some(bindings[token]);
      }
      if parent == null {
        return None;
      }
      b := parent.FindBindingOf(token);
    }

    method ResolveToken(cls: Classes, objects: Objects, token: Token) returns (out: Result<Inst, Error>)
      requires Rooted()
      modifies chain, objects
      ensures Outcome(View(), objects.built, out) == Resolve(cls, old(View()), old(objects.built), token)
      decreases Depth(View()), Pending(cls, View()), 1, 0
    {
      hide Construct, ResolveAll, Finish, Enter, Names;
      if disposed {
        return Err(Disposed);
      }
      var binding := FindBindingOf(token);
      if Holds(singletons, token) {
        return Ok(singletons[Index(singletons, token)].inst);
      }
      var recipe: Recipe;
      var cached := true;
      match binding {
        case Some(b) =>
          if token !in bindings && parent != null && b.lifetime.Singleton? {
            out := parent.ResolveToken(cls, objects, token);
            return;
          }
          recipe, cached := b.recipe, !b.lifetime.Transient?;
        case None =>
          if token !in cls {
            return Err(Unbound(token));
          }
          recipe := Build(cls[token]);
      }
      if token in resolving {
        return Err(Circular(token));
      }
      NamesBound(cls, View(), token);
      Shrinks(cls, View(), token);
      out := MakeToken(cls, objects, token, recipe, cached);
    }

    /** Build `token`, marked as under construction meanwhile. */
    method MakeToken(cls: Classes, objects: Objects, token: Token, recipe: Recipe, cached: bool)
        returns (out: Result<Inst, Error>)
      requires Rooted() && !Holds(singletons, token) && token !in resolving
      requires Pending(cls, Enter(View(), token)) < Pending(cls, View())
      modifies chain, objects
      ensures Outcome(View(), objects.built, out) ==
              Finish(old(View()), token, cached, recipe.Build?,
                     Construct(cls, Enter(old(View()), token), old(objects.built), recipe))
      decreases Depth(View()), Pending(cls, View()), 0, 0
    {
      hide Construct, ResolveAll, Pending;
      ghost var before, e := View(), Construct(cls, Enter(View(), token), objects.built, recipe);
      resolving := resolving + {token};
      assert View() == Enter(before, token);
      out := RunRecipe(cls, objects, recipe);
      if out.Ok? && cached {
        singletons := SetSlot(singletons, Slot(token, out.value, recipe.Build?));
      }
      resolving := resolving - {token};
      assert resolving == before.top.resolving;
      assert View().parent == e.chain.parent;
    }

    /** Run a factory or a constructor: resolve its dependencies in order, then build. */
    method RunRecipe(cls: Classes, objects: Objects, recipe: Recipe) returns (out: Result<Inst, Error>)
      requires Rooted()
      modifies chain, objects
      ensures Outcome(View(), objects.built, out) == Construct(cls, old(View()), old(objects.built), recipe)
      decreases Depth(View()), Pending(cls, View()), 3, 0
    {
      if recipe.Constant? {
        return Ok(recipe.inst);
      }
      var insts := ResolveDeps(cls, objects, recipe.deps);
      if insts.Err? {
        return Err(insts.error);
      }
      out := Ok(Inst(objects.built, insts.value));
      objects.built := objects.built + 1;
    }

    method ResolveDeps(cls: Classes, objects: Objects, deps: seq<Option<Token>>) returns (out: Result<seq<Inst>, Error>)
      requires Rooted()
      modifies chain, objects
      ensures Outcome(View(), objects.built, out) == ResolveAll(cls, old(View()), old(objects.built), deps, |deps|)
      decreases Depth(View()), Pending(cls, View()), 2, 0
    {
      hide *;
      var insts: seq<Inst> := [];
      ghost var c, next := View(), objects.built;
      NoDepsYet(cls, c, next, deps);
      for k := 0 to |deps|
        invariant Outcome(View(), objects.built, Ok(insts)) == ResolveAll(cls, c, next, deps, k)
      {
        var _, _, _ := ResolveAllStep(cls, c, next, deps, k + 1);
        if deps[k].None? {
          Stopped(cls, c, next, deps, k + 1, |deps|);
          return Err(BadParameter);
        }
        ExtendsFacts(cls, c, View());
        var d := ResolveToken(cls, objects, deps[k].value);
        if d.Err? {
          Stopped(cls, c, next, deps, k + 1, |deps|);
          return Err(d.error);
        }
        insts := insts + [d.value];
      }
      return Ok(insts);
    }

    lemma NoDepsYet(cls: Classes, c: Chain, next: nat, deps: seq<Option<Token>>)
      requires c.Scope?
      ensures ResolveAll(cls, c, next, deps, 0) == Outcome(c, next, Ok([]))
    {
    }

    /** The first failing dependency stops the rest. */
    lemma {:induction false} Stopped(cls: Classes, c: Chain, next: nat, deps: seq<Option<Token>>, k: nat, n: nat)
      requires c.Scope? && k <= n <= |deps| && ResolveAll(cls, c, next, deps, k).out.Err?
      ensures ResolveAll(cls, c, next, deps, n) == ResolveAll(cls, c, next, deps, k)
      decreases n
    {
      if k < n { Stopped(cls, c, next, deps, k, n - 1); }
    }

    /** Dispose the held instances, last first; returns those visited.  The parent keeps its own. */
    method Dispose() returns (visited: seq<Inst>)
      requires Rooted()
      modifies this
      ensures Top() == DisposeLayer(old(Top()))
      ensures visited == if old(disposed) then [] else DisposalOrder(old(singletons))
      ensures View().parent == old(View()).parent
    {
      visited := [];
      if disposed {
        return;
      }
      assert singletons[..|singletons|] == singletons;
      disposed := true;
      var i := |singletons|;
      while i > 0
        invariant 0 <= i <= |singletons| && singletons == old(singletons)
        invariant disposed && bindings == old(bindings) && resolving == old(resolving)
        invariant visited + DisposalOrder(singletons[..i]) == DisposalOrder(singletons)
      {
        assert singletons[..i][..i - 1] == singletons[..i - 1];
        i := i - 1;
        visited := visited + [singletons[i].inst];
      }
      assert DisposalOrder(singletons[..0]) == [];
      singletons := [];
      resolving := {};
    }

    method ResetInstances() returns (out: Result<(), Error>)
      requires Rooted()
      modifies this
      ensures out == if old(disposed) then Err(Disposed) else Ok(())
      ensures Top() == if old(disposed) then old(Top()) else old(Top()).(held := [], resolving := {})
    {
      if disposed {
        return Err(Disposed);
      }
      singletons := [];
      resolving := {};
      return Ok(());
    }
  }
}
