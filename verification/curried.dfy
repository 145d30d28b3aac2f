/**
 * Wirer::Factory::CurriedDependencies: a factory together with dependencies
 * constructed once, building a new object from them on every call. Building
 * through a handle goes straight to the factory: it takes no part in any
 * construction session, so it neither consults singleton slots nor queues the
 * object for setter injection or post-initialisation.
 */
module Curried {
  import opened Base
  import opened OrderedMaps
  import opened Classes
  import opened Errors
  import opened Values
  import opened FactoryInterface

  /** `handle.new(*args)`: the factory's build from the captured dependencies. */
  function HandleNew(h: Value, w: World, args: seq<Value>, id: nat): Result<Value, ErrorClass>
    requires h.Handle?
  {
    Build(h.f, w, h.deps, args, id)
  }

  /** `handle.call(*args)`, an alias of `new`. */
  function Call(h: Value, w: World, args: seq<Value>, id: nat): Result<Value, ErrorClass>
    requires h.Handle?
  {
    HandleNew(h, w, args, id)
  }

  /** `handle.to_proc`: a procedure doing what `new` does. */
  function ToProc(h: Value, w: World): (p: (seq<Value>, nat) -> Result<Value, ErrorClass>)
    requires h.Handle?
    ensures forall args, id :: p(args, id) == HandleNew(h, w, args, id) && p(args, id) == Call(h, w, args, id)
  {
    var f, deps := h.f, h.deps;
    (args: seq<Value>, id: nat) => Build(f, w, deps, args, id)
  }

  /**
   * The captured dependencies are reused unchanged: two builds through one
   * handle of a class factory, with the same arguments, give objects of the
   * same class that received the same constructor arguments, differing only in
   * identity, or both raise what the class's `new` raises; a constant-instance
   * factory gives its instance every time.
   */
  lemma HandleReusesDependencies(h: Value, w: World, args: seq<Value>, id1: nat, id2: nat)
    requires h.Handle?
    ensures (h.f.ClassFactory? || (h.f.FromArgs? && h.f.block.None?)) && ProvidesClass(h.f) !in w.failing ==>
      && HandleNew(h, w, args, id1).Ok? && HandleNew(h, w, args, id2).Ok?
      && HandleNew(h, w, args, id1).value.New? && HandleNew(h, w, args, id2).value.New?
      && HandleNew(h, w, args, id1).value.(id := id2) == HandleNew(h, w, args, id2).value
    ensures (h.f.ClassFactory? || (h.f.FromArgs? && h.f.block.None?)) && ProvidesClass(h.f) in w.failing ==>
      HandleNew(h, w, args, id1) == HandleNew(h, w, args, id2) == Err(w.failing[ProvidesClass(h.f)])
    ensures h.f.FromInstance? ==>
      HandleNew(h, w, [], id1) == HandleNew(h, w, [], id2) == Ok(h.f.instance)
  {
  }

  /**
   * What an object built through a handle of a class factory receives: the
   * captured dependencies, merged into the last argument or appended as a
   * Hash, so each captured name reaches the constructor with its value.
   */
  lemma HandleDeliversDependencies(h: Value, w: World, args: seq<Value>, id: nat, k: Value)
    requires h.Handle? && h.f.ClassFactory? && Valid(h.deps) && HasKey(h.deps, k)
    ensures var r := HandleNew(h, w, args, id);
      && (ProvidesClass(h.f) in w.failing ==> r == Err(w.failing[ProvidesClass(h.f)]))
      && (ProvidesClass(h.f) !in w.failing ==>
            && r.Ok? && r.value.New?
            && |r.value.args| > 0 && r.value.args[|r.value.args| - 1].HashV?
            && Get(r.value.args[|r.value.args| - 1].h, k) == Get(h.deps, k))
  {
    DependenciesDelivered(args, h.deps, k);
  }
}
