/**
 * A worked session: a constructor dependency one way and a setter dependency
 * the other way make a cycle the container can build. `Foo` has a setter
 * dependency `:bar` on `Bar`, and `Bar` a constructor dependency `:foo` on
 * `Foo`; both are singletons.
 */
module CyclicScenario {
  import opened Base
  import opened OrderedMaps
  import opened Classes
  import opened Errors
  import opened Values
  import opened FactoryInterface
  import opened Dependencies
  import opened Sessions

  const FooClass := Mod("Foo", true)
  const BarClass := Mod("Bar", true)
  const NeedsFoo := Dependency(Required(FooClass), Nil, false, false, false)
  const NeedsBar := Dependency(Required(BarClass), Nil, false, false, false)
  const FooFactory := FromArgs(UserKey(0), FooClass, OMap([]), OMap([(Sym("bar"), NeedsBar)]), [], None, None)
  const BarFactory := FromArgs(UserKey(1), BarClass, OMap([(Sym("foo"), NeedsFoo)]), OMap([]), [], None, None)
  /** `Foo` defines `bar=`; no class defines `post_initialize` or fails to construct. */
  const Program := World(Hierarchy(map[]), map[], {}, {("Foo", Sym("bar"))}, map[])
  const EmptySlots := map[UserKey(0) := Nil, UserKey(1) := Nil]

  function Setup(engine: Engine): Env {
    Env(Program, [FooFactory, BarFactory], engine)
  }

  /** The objects the session builds: `Foo` first, then `Bar` with `Foo` as its constructor argument. */
  const FooObject := New(0, "Foo", [])
  const BarObject := New(1, "Bar", [HashV(OMap([(Sym("foo"), FooObject)]))])

  /** Each descriptor is matched by exactly one of the two factories. */
  lemma Matches()
    ensures MatchFactories(NeedsBar, [FooFactory, BarFactory], Program) == Ok(One(Some(BarFactory)))
    ensures MatchFactories(NeedsFoo, [FooFactory, BarFactory], Program) == Ok(One(Some(FooFactory)))
  {
    assert Satisfies(NeedsBar, FooFactory, Program) == Ok(false);
    assert Satisfies(NeedsBar, BarFactory, Program) == Ok(true);
    assert Satisfies(NeedsFoo, FooFactory, Program) == Ok(true);
    assert Satisfies(NeedsFoo, BarFactory, Program) == Ok(false);
    assert [FooFactory, BarFactory][1..] == [BarFactory];
    assert [BarFactory][1..] == [];
    assert Candidates(NeedsBar, [], Program) == Ok([]);
    assert [BarFactory] + [] == [BarFactory];
    assert Candidates(NeedsBar, [BarFactory], Program) == Ok([BarFactory]);
    assert Candidates(NeedsBar, [FooFactory, BarFactory], Program) == Ok([BarFactory]);
    assert Candidates(NeedsFoo, [], Program) == Ok([]);
    assert Candidates(NeedsFoo, [BarFactory], Program) == Ok([]);
    assert [FooFactory] + [] == [FooFactory];
    assert Candidates(NeedsFoo, [FooFactory, BarFactory], Program) == Ok([FooFactory]);
  }

  // ---------------------------------------------------------------------------
  // The sessions along the way

  /** The slots once `Foo` is built, and once both are. */
  const FooSlots := EmptySlots[UserKey(0) := FooObject]
  const BothSlots := FooSlots[UserKey(1) := BarObject]
  /** The constructor arguments `Bar` receives, and the setter dependencies `Foo` receives. */
  const BarCtorDeps := OMap([(Sym("foo"), FooObject)])
  const FooSetterDeps := OMap([(Sym("bar"), BarObject)])
  const Injection := Injected(FooObject, Sym("bar"), BarObject)

  /** Phase 1: `Foo` asked for, pushed, built, then settled and queued for phase 2. */
  const Start := Session(EmptySlots, 0, [], [], [], [])
  const FooPushed := Session(EmptySlots, 0, [UserKey(0)], [], [], [])
  const FooMade := Session(EmptySlots, 1, [UserKey(0)], [], [], [])
  const FooQueued := Session(FooSlots, 1, [], [(FooFactory, FooObject)], [], [])
  /** Phase 2 on `Foo`: `Bar` asked for, pushed, built, then settled and queued. */
  const BarAsked := Session(FooSlots, 1, [], [], [], [])
  const BarPushed := Session(FooSlots, 1, [UserKey(1)], [], [], [])
  const BarMade := Session(FooSlots, 2, [UserKey(1)], [], [], [])
  const BarQueued := Session(BothSlots, 2, [], [(BarFactory, BarObject)], [], [])
  /** `Bar` injected into `Foo`, and `Foo` through phase 2. */
  const FooInjected := Session(BothSlots, 2, [], [(BarFactory, BarObject)], [], [Injection])
  const FooFinished := Session(BothSlots, 2, [], [(BarFactory, BarObject)], [(FooFactory, FooObject)], [Injection])
  /** Phase 2 on `Bar`, and both through phase 2. */
  const BarPopped := Session(BothSlots, 2, [], [], [(FooFactory, FooObject)], [Injection])
  const AllFinished := Session(BothSlots, 2, [], [], [(FooFactory, FooObject), (BarFactory, BarObject)], [Injection])

  // ---------------------------------------------------------------------------
  // One step of the engine at a time

  /** A factory neither cached nor on the stack is built, then settled. */
  lemma WithoutArgsStep(env: Env, f: Factory, s: Session, fuel: nat, pushed: Session, v: Value, s1: Session)
    requires !Cached(s, f.key) && f.key !in s.stack && fuel > 0 && pushed == s.(stack := s.stack + [f.key])
    requires BuildWithDeps(env, f, [], pushed, fuel - 1) == Done(v, s1)
    ensures |s1.stack| > 0 && WithoutArgs(env, f, s, fuel) == Done(v, Settle(f, v, s1))
  {
  }

  /** A table's first dependency is constructed, then the rest. */
  lemma EntriesStep(env: Env, entries: seq<(Value, Dependency)>, acc: OMap<Value, Value>, s: Session, fuel: nat, v: Value, s1: Session)
    requires |entries| > 0 && ConstructDependency(env, entries[0].1, s, fuel) == Done(v, s1)
    ensures ConstructEntries(env, entries, acc, s, fuel) == ConstructEntries(env, entries[1..], Put(acc, entries[0].0, v), s1, fuel)
  {
  }

  /** A single matching factory is constructed through the callback. */
  lemma DependencyStep(env: Env, d: Dependency, g: Factory, s: Session, fuel: nat)
    requires MatchFactories(d, env.factories, env.w) == Ok(One(Some(g))) && !d.handle
    ensures ConstructDependency(env, d, s, fuel) == WithoutArgs(env, g, s, fuel)
  {
  }

  /** One round of phase 2: the last queued object gets its setters, then waits for post-initialisation. */
  lemma DrainStep(env: Env, s: Session, fuel: nat, p: (Factory, Value), popped: Session, s1: Session)
    requires |s.phase2| > 0 && fuel > 0 && p == s.phase2[|s.phase2| - 1] && popped == s.(phase2 := s.phase2[..|s.phase2| - 1])
    requires SetterPhase(env, p.0, p.1, popped, fuel - 1) == Done((), s1)
    ensures Drain(env, s, fuel) == Drain(env, s1.(postInit := s1.postInit + [p]), fuel - 1)
  {
  }

  // ---------------------------------------------------------------------------
  // Phase 1: `Foo`

  lemma FooBuilt()
    ensures Build(FooFactory, Program, Empty(), [], 0) == Ok(FooObject)
  {
    assert MergeDependencies([], Empty()) == [];
  }

  lemma FooWithDeps(engine: Engine)
    ensures BuildWithDeps(Setup(engine), FooFactory, [], FooPushed, 9) == Done(FooObject, FooMade)
  {
    assert ConstructEntries(Setup(engine), [], Empty(), FooPushed, 9) == Done(Empty(), FooPushed);
    FooBuilt();
  }

  lemma FooNotYetBuilt()
    ensures !Cached(Start, UserKey(0)) && UserKey(0) !in Start.stack
    ensures FooPushed == Start.(stack := Start.stack + [UserKey(0)])
  {
  }

  lemma FooSettled()
    ensures Settle(FooFactory, FooObject, FooMade) == FooQueued
  {
  }

  /** Phase 1 builds `Foo` alone (it has no constructor dependencies), fills its slot and queues it. */
  lemma BuildFoo(engine: Engine)
    ensures Perform(Setup(engine), ByFactory(Some(FooFactory), [], false), Start, 10) == Done(FooObject, FooQueued)
  {
    FooNotYetBuilt();
    FooWithDeps(engine);
    FooSettled();
    WithoutArgsStep(Setup(engine), FooFactory, Start, 10, FooPushed, FooObject, FooMade);
  }

  // ---------------------------------------------------------------------------
  // Phase 2 on `Foo`: phase 1 for `Bar`

  lemma FooCachedWhileBarPushed()
    ensures Cached(BarPushed, UserKey(0)) && BarPushed.slots[UserKey(0)] == FooObject
  {
  }

  lemma FooCachedForBar(engine: Engine)
    ensures ConstructDependency(Setup(engine), NeedsFoo, BarPushed, 8) == Done(FooObject, BarPushed)
  {
    Matches();
    FooCachedWhileBarPushed();
    DependencyStep(Setup(engine), NeedsFoo, FooFactory, BarPushed, 8);
  }

  /** `Bar`'s constructor table is `{foo: Foo}`. */
  lemma BarCtorTable()
    ensures var t := ConstructorDependencies(BarFactory).entries;
      && |t| == 1 && t[0].1 == NeedsFoo && t[1..] == [] && Put(Empty(), t[0].0, FooObject) == BarCtorDeps
  {
  }

  lemma BarCtorDepsBuilt(engine: Engine)
    ensures ConstructEntries(Setup(engine), ConstructorDependencies(BarFactory).entries, Empty(), BarPushed, 8) == Done(BarCtorDeps, BarPushed)
  {
    BarCtorTable();
    FooCachedForBar(engine);
    EntriesStep(Setup(engine), ConstructorDependencies(BarFactory).entries, Empty(), BarPushed, 8, FooObject, BarPushed);
  }

  lemma BarBuilt()
    ensures Build(BarFactory, Program, BarCtorDeps, [], 1) == Ok(BarObject)
  {
    assert MergeDependencies([], BarCtorDeps) == [HashV(BarCtorDeps)];
  }

  lemma BarWithDeps(engine: Engine)
    ensures BuildWithDeps(Setup(engine), BarFactory, [], BarPushed, 8) == Done(BarObject, BarMade)
  {
    BarCtorDepsBuilt(engine);
    BarBuilt();
  }

  /** `Bar` is neither cached nor on the stack when asked for, so it is pushed. */
  lemma BarNotYetBuilt()
    ensures !Cached(BarAsked, UserKey(1)) && UserKey(1) !in BarAsked.stack
    ensures BarPushed == BarAsked.(stack := BarAsked.stack + [UserKey(1)])
  {
  }

  lemma BarSettled()
    ensures Settle(BarFactory, BarObject, BarMade) == BarQueued
  {
  }

  /**
   * Asked for `Bar` while `Foo` is cached, phase 1 builds `Bar` with the
   * cached `Foo` as its constructor's `:foo`, fills its slot and queues it.
   */
  lemma BuildBar(engine: Engine)
    ensures WithoutArgs(Setup(engine), BarFactory, BarAsked, 9) == Done(BarObject, BarQueued)
  {
    BarNotYetBuilt();
    BarWithDeps(engine);
    BarSettled();
    WithoutArgsStep(Setup(engine), BarFactory, BarAsked, 9, BarPushed, BarObject, BarMade);
  }

  // ---------------------------------------------------------------------------
  // Phase 2 on `Foo`: the injection

  lemma BarForFooDependency(engine: Engine)
    ensures ConstructDependency(Setup(engine), NeedsBar, BarAsked, 9) == Done(BarObject, BarQueued)
  {
    Matches();
    BuildBar(engine);
    DependencyStep(Setup(engine), NeedsBar, BarFactory, BarAsked, 9);
  }

  /** `Foo`'s setter table is `{bar: Bar}`. */
  lemma FooSetterTable()
    ensures var t := SetterDependencies(FooFactory, FooObject).entries;
      && |t| == 1 && t[0].1 == NeedsBar && t[1..] == [] && Put(Empty(), t[0].0, BarObject) == FooSetterDeps
  {
  }

  lemma BarForFoo(engine: Engine)
    ensures ConstructEntries(Setup(engine), SetterDependencies(FooFactory, FooObject).entries, Empty(), BarAsked, 9)
      == Done(FooSetterDeps, BarQueued)
  {
    FooSetterTable();
    BarForFooDependency(engine);
    EntriesStep(Setup(engine), SetterDependencies(FooFactory, FooObject).entries, Empty(), BarAsked, 9, BarObject, BarQueued);
  }

  lemma InjectIntoFoo()
    ensures InjectAll(Program, FooFactory, FooObject, FooSetterDeps.entries, BarQueued) == Done((), FooInjected)
  {
    assert FooSetterDeps.entries[1..] == [];
  }

  /** Phase 2 on `Foo` builds `Bar` for its setter dependency, queues it, and injects it into `Foo`. */
  lemma InjectBarIntoFoo(engine: Engine)
    ensures SetterPhase(Setup(engine), FooFactory, FooObject, BarAsked, 9) == Done((), FooInjected)
  {
    BarForFoo(engine);
    InjectIntoFoo();
  }

  // ---------------------------------------------------------------------------
  // Phase 2 on `Bar`, and the whole loop

  lemma NothingForBar(engine: Engine, s: Session)
    ensures SetterPhase(Setup(engine), BarFactory, BarObject, s, 8) == Done((), s)
  {
    assert ConstructEntries(Setup(engine), [], Empty(), s, 8) == Done(Empty(), s);
  }

  /** The two rounds of phase 2 pop `Foo`, then `Bar`, each onto the post-initialisation queue. */
  lemma Rounds()
    ensures |FooQueued.phase2| > 0 && FooQueued.phase2[|FooQueued.phase2| - 1] == (FooFactory, FooObject)
    ensures BarAsked == FooQueued.(phase2 := FooQueued.phase2[..|FooQueued.phase2| - 1])
    ensures FooFinished == FooInjected.(postInit := FooInjected.postInit + [(FooFactory, FooObject)])
    ensures |FooFinished.phase2| > 0 && FooFinished.phase2[|FooFinished.phase2| - 1] == (BarFactory, BarObject)
    ensures BarPopped == FooFinished.(phase2 := FooFinished.phase2[..|FooFinished.phase2| - 1])
    ensures AllFinished == BarPopped.(postInit := BarPopped.postInit + [(BarFactory, BarObject)])
  {
    assert FooQueued.phase2[..0] == [];
    assert FooFinished.phase2[..0] == [];
  }

  lemma DrainBar(engine: Engine)
    ensures Drain(Setup(engine), FooFinished, 9) == Done((), AllFinished)
  {
    Rounds();
    NothingForBar(engine, BarPopped);
    DrainStep(Setup(engine), FooFinished, 9, (BarFactory, BarObject), BarPopped, BarPopped);
  }

  /** Phase 2 handles `Foo`, then `Bar` (which needs nothing more), and empties its queue. */
  lemma DrainBoth(engine: Engine)
    ensures Drain(Setup(engine), FooQueued, 10) == Done((), AllFinished)
  {
    Rounds();
    InjectBarIntoFoo(engine);
    DrainStep(Setup(engine), FooQueued, 10, (FooFactory, FooObject), BarAsked, FooInjected);
    DrainBar(engine);
  }

  // ---------------------------------------------------------------------------
  // The session

  /** Both phases together: `Foo` is the result, and both objects wait for post-initialisation. */
  lemma BothPhases(engine: Engine)
    ensures Finish(Setup(engine), ByFactory(Some(FooFactory), [], false), EmptySlots, 0, 10) == (Ok(FooObject), AllFinished)
  {
    BuildFoo(engine);
    DrainBoth(engine);
  }

  /** No class here has the hook, so post-initialisation adds no effect. */
  lemma NoNotices()
    ensures Notices(Program.hooked, AllFinished.postInit) == []
  {
    var q := AllFinished.postInit;
    assert Notices(Program.hooked, q[1..][1..]) == [];
    assert Notices(Program.hooked, q[1..]) == [];
  }

  /** The whole session: the result, the filled slots, and the one injection. */
  lemma SessionOutcome(engine: Engine)
    ensures RunSession(Setup(engine), ByFactory(Some(FooFactory), [], false), EmptySlots, 0, 10)
      == SessionResult(Ok(FooObject), BothSlots, 2, [Injection])
  {
    BothPhases(engine);
    NoNotices();
  }

  /**
   * A constructor dependency `Bar` → `Foo` and a setter dependency
   * `Foo` → `Bar` do not make a cycle error: asking for `Foo` returns it,
   * with the `Bar` built for it injected as `bar`, and that `Bar` received
   * the very same `Foo` as its constructor's `:foo`; both singletons are
   * filled.
   */
  lemma MutualReference(engine: Engine)
    ensures var r := RunSession(Setup(engine), ByFactory(Some(FooFactory), [], false), EmptySlots, 0, 10);
      && r.result == Ok(FooObject)
      && r.effects == [Injected(r.result.value, Sym("bar"), BarObject)]
      && BarObject.args == [HashV(OMap([(Sym("foo"), r.result.value)]))]
      && r.slots.Keys == EmptySlots.Keys && r.slots[UserKey(0)] == r.result.value && r.slots[UserKey(1)] == BarObject
  {
    SessionOutcome(engine);
  }
}
