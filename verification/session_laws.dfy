/**
 * Properties of construction sessions that relate several steps or several
 * sessions: how cycles are reported, what singletons guarantee across
 * sessions, what a `:factory => true` dependency receives, and that built
 * objects are post-initialised.
 */
module SessionLaws {
  import opened Base
  import opened OrderedMaps
  import opened Classes
  import opened Errors
  import opened Values
  import opened FactoryInterface
  import opened Dependencies
  import opened Sessions

  /**
   * Meeting a factory that is already under construction reports the cycle:
   * it starts and ends with that factory, between them come the factories
   * pushed since, in order, and (the stack never holding a factory twice) the
   * repeated factory occurs nowhere else in it. Nothing is built.
   */
  lemma CycleReport(env: Env, f: Factory, s: Session, fuel: nat)
    requires !Cached(s, f.key) && f.key in s.stack && NoDuplicates(s.stack)
    ensures var r := WithoutArgs(env, f, s, fuel);
      && r.Fail? && r.err.Cyclic? && r.s == s
      && var c := r.err.cycle;
      && |c| >= 2 && c[0] == f.key && c[|c| - 1] == f.key
      && s.stack[|s.stack| - (|c| - 1)..] == c[..|c| - 1]
      && (forall j :: 0 < j < |c| - 1 ==> c[j] != f.key)
  {
    CycleShape(s.stack, f.key);
    assert WithoutArgs(env, f, s, fuel) == Fail(Cyclic(s.stack[Index(s.stack, f.key)..] + [f.key]), s);
  }

  /** The cycle cut from a duplicate-free stack at `k`'s place, closed by `k` again. */
  lemma CycleShape(stack: seq<Key>, k: Key)
    requires k in stack && NoDuplicates(stack)
    ensures var c := stack[Index(stack, k)..] + [k];
      && |c| >= 2 && c[0] == k && c[|c| - 1] == k
      && stack[|stack| - (|c| - 1)..] == c[..|c| - 1]
      && (forall j :: 0 < j < |c| - 1 ==> c[j] != k)
  {
    var i := Index(stack, k);
    var c := stack[i..] + [k];
    assert c[..|c| - 1] == stack[i..];
    forall j | 0 < j < |c| - 1
      ensures c[j] != k
    {
      assert c[j] == stack[i + j];
      Distinct(stack, i, i + j);
    }
  }

  /** A session's state before it starts. */
  function Fresh(slots: map<Key, Value>, next: nat): Session {
    Session(slots, next, [], [], [], [])
  }

  /**
   * A singleton is built at most once: once a session has returned a
   * (truthy) instance for it, the instance sits in its slot, and the next
   * session asking for it returns the same instance without building,
   * injecting or post-initialising anything.
   */
  lemma SingletonStable(env: Env, f: Factory, slots: map<Key, Value>, next: nat, fuel: nat, fuel2: nat)
    requires f.key in slots
    requires var r1 := RunSession(env, ByFactory(Some(f), [], false), slots, next, fuel);
      r1.result.Ok? && Truthy(r1.result.value)
    ensures var r1 := RunSession(env, ByFactory(Some(f), [], false), slots, next, fuel);
      && r1.slots[f.key] == r1.result.value
      && RunSession(env, ByFactory(Some(f), [], false), r1.slots, r1.next, fuel2) == SessionResult(r1.result, r1.slots, r1.next, [])
  {
    var req := ByFactory(Some(f), [], false);
    var o := WithoutArgs(env, f, Fresh(slots, next), fuel);
    assert Perform(env, req, Fresh(slots, next), fuel) == o;
    var v := o.value;
    DrainProperties(env, o.s, fuel);
    var d := Drain(env, o.s, fuel);
    assert Finish(env, req, slots, next, fuel) == (Ok(v), d.s);
    assert Cached(o.s, f.key);
    var s2 := Fresh(d.s.slots, d.s.next);
    assert Cached(s2, f.key);
    assert Perform(env, req, s2, fuel2) == Done(v, s2);
    assert Drain(env, s2, fuel2) == Done((), s2);
    assert Finish(env, req, d.s.slots, d.s.next, fuel2) == (Ok(v), s2);
  }

  /**
   * An object a successful session built for the request is post-initialised
   * before the session returns, when its class defines the hook.
   */
  lemma BuiltObjectNotified(env: Env, f: Factory, slots: map<Key, Value>, next: nat, fuel: nat)
    requires !(f.key in slots && Truthy(slots[f.key]))
    requires var r := RunSession(env, ByFactory(Some(f), [], false), slots, next, fuel);
      r.result.Ok? && ClassOf(r.result.value) in env.w.hooked
    ensures var r := RunSession(env, ByFactory(Some(f), [], false), slots, next, fuel);
      Notified(r.result.value) in r.effects
  {
    var req := ByFactory(Some(f), [], false);
    var o := WithoutArgs(env, f, Fresh(slots, next), fuel);
    assert Perform(env, req, Fresh(slots, next), fuel) == o;
    var v := o.value;
    DrainProperties(env, o.s, fuel);
    var d := Drain(env, o.s, fuel);
    assert Finish(env, req, slots, next, fuel) == (Ok(v), d.s);
    var last := |o.s.phase2| - 1;
    assert o.s.phase2[last] == (f, v);
    assert (f, v) in multiset(o.s.phase2);
    assert (f, v) in d.s.postInit;
    var i :| 0 <= i < |d.s.postInit| && d.s.postInit[i] == (f, v);
    NoticesSpec(env.w.hooked, d.s.postInit);
    assert Notified(v) in Notices(env.w.hooked, d.s.postInit);
  }

  /** Constructing a table of dependencies gives a Hash with exactly the table's names. */
  lemma {:induction false} ConstructEntriesKeys(env: Env, entries: seq<(Value, Dependency)>, acc: OMap<Value, Value>, s: Session, fuel: nat, k: Value)
    ensures var r := ConstructEntries(env, entries, acc, s, fuel);
      r.Done? ==> (HasKey(r.value, k) <==> HasKey(acc, k) || k in Keys(OMap(entries)))
    decreases |entries|
  {
    if |entries| > 0 {
      var o := ConstructDependency(env, entries[0].1, s, fuel);
      if o.Done? {
        var acc' := Put(acc, entries[0].0, o.value);
        ConstructEntriesKeys(env, entries[1..], acc', o.s, fuel, k);
        assert ConstructEntries(env, entries, acc, s, fuel) == ConstructEntries(env, entries[1..], acc', o.s, fuel);
        assert Keys(OMap(entries)) == [entries[0].0] + Keys(OMap(entries[1..]));
        assert HasKey(acc', k) <==> HasKey(acc, k) || k == entries[0].0;
      }
    }
  }

  /**
   * What a build without arguments returns, for a factory not yet cached: the
   * factory is pushed, its constructor dependencies are constructed, and the
   * object is the factory's build over them, taking the next identity; it then
   * fills its slot and is queued for phase 2. The build succeeds exactly when
   * the factory is not under construction and both steps succeed.
   */
  lemma WithoutArgsBuildsFromDependencies(env: Env, f: Factory, s: Session, fuel: nat)
    requires !Cached(s, f.key)
    ensures var r := WithoutArgs(env, f, s, fuel);
      var e := ConstructEntries(env, ConstructorDependencies(f).entries, Empty(), s.(stack := s.stack + [f.key]), if fuel == 0 then 0 else fuel - 1);
      r.Done? <==> fuel > 0 && f.key !in s.stack && e.Done? && Build(f, env.w, e.value, [], e.s.next).Ok?
    ensures var r := WithoutArgs(env, f, s, fuel);
      var e := ConstructEntries(env, ConstructorDependencies(f).entries, Empty(), s.(stack := s.stack + [f.key]), if fuel == 0 then 0 else fuel - 1);
      r.Done? ==> && e.Done? && Build(f, env.w, e.value, [], e.s.next) == Ok(r.value)
                  && |e.s.stack| > 0 && r.s == Settle(f, r.value, e.s.(next := e.s.next + 1))
  {
  }

  /**
   * What a build with arguments returns: the constructor dependencies are
   * constructed with nothing pushed, and the object is the factory's build
   * over them and the arguments, taking the next identity; it is queued for
   * phase 2 and nothing else changes, so no slot is read or written and the
   * cycle stack is neither consulted nor pushed.
   */
  lemma WithArgsBuildsFromDependencies(env: Env, f: Factory, args: seq<Value>, s: Session, fuel: nat)
    ensures var r := WithArgs(env, f, args, s, fuel);
      var e := ConstructEntries(env, ConstructorDependencies(f).entries, Empty(), s, if fuel == 0 then 0 else fuel - 1);
      r.Done? <==> fuel > 0 && e.Done? && Build(f, env.w, e.value, args, e.s.next).Ok?
    ensures var r := WithArgs(env, f, args, s, fuel);
      var e := ConstructEntries(env, ConstructorDependencies(f).entries, Empty(), s, if fuel == 0 then 0 else fuel - 1);
      r.Done? ==> && e.Done? && Build(f, env.w, e.value, args, e.s.next) == Ok(r.value)
                  && r.s == e.s.(next := e.s.next + 1, phase2 := e.s.phase2 + [(f, r.value)])
  {
  }

  /**
   * A factory without constructor dependencies, asked for with arguments, is
   * built afresh and queued even when its singleton slot is filled or it is
   * already under construction.
   */
  lemma WithArgsBypass(env: Env, f: Factory, args: seq<Value>, s: Session, fuel: nat)
    requires fuel > 0 && ConstructorDependencies(f).entries == [] && Build(f, env.w, Empty(), args, s.next).Ok?
    ensures var v := Build(f, env.w, Empty(), args, s.next).value;
      WithArgs(env, f, args, s, fuel) == Done(v, s.(next := s.next + 1, phase2 := s.phase2 + [(f, v)]))
  {
    assert ConstructEntries(env, [], Empty(), s, fuel - 1) == Done(Empty(), s);
  }

  /**
   * The block given to `match_factories`. The Legacy engine always builds the
   * factory's object. The Current engine does too, except for a `:factory =>
   * true` dependency: a singleton factory is then an error, and any other
   * factory gives a handle on it carrying exactly its constructor
   * dependencies, freshly constructed.
   */
  lemma HandleMode(env: Env, d: Dependency, g: Factory, s: Session, fuel: nat, k: Value)
    ensures !(env.engine.Current? && d.handle) ==> Callback(env, d, g, s, fuel) == WithoutArgs(env, g, s, fuel)
    ensures env.engine.Current? && d.handle && g.key in s.slots ==> Callback(env, d, g, s, fuel) == Fail(Raised(WirerError), s)
    ensures var r := Callback(env, d, g, s, fuel);
      env.engine.Current? && d.handle && g.key !in s.slots && r.Done? ==>
        && r.value.Handle? && r.value.f == g
        && (HasKey(r.value.deps, k) <==> HasKey(ConstructorDependencies(g), k))
    ensures var r := Callback(env, d, g, s, fuel);
      env.engine.Current? && d.handle && g.key !in s.slots && r.Done? ==>
        && fuel > 0
        && var e := ConstructEntries(env, ConstructorDependencies(g).entries, Empty(), s, fuel - 1);
        && e.Done? && r == Done(Handle(g, e.value), e.s)
  {
    if env.engine.Current? && d.handle && g.key !in s.slots && fuel > 0 {
      ConstructEntriesKeys(env, ConstructorDependencies(g).entries, Empty(), s, fuel - 1, k);
      var o := ConstructEntries(env, ConstructorDependencies(g).entries, Empty(), s, fuel - 1);
      assert OMap(ConstructorDependencies(g).entries) == ConstructorDependencies(g);
      assert o.Done? ==> Callback(env, d, g, s, fuel) == Done(Handle(g, o.value), o.s);
    }
  }

  /**
   * What `construct_dependency` returns: the error of a failed match; for a
   * multiple dependency an Array with one object per matching factory, in
   * order; and nil for an optional single dependency nothing matches.
   */
  lemma DependencyResultShape(env: Env, d: Dependency, s: Session, fuel: nat)
    ensures var m := MatchFactories(d, env.factories, env.w);
      m.Err? ==> ConstructDependency(env, d, s, fuel) == Fail(Raised(m.error), s)
    ensures var m := MatchFactories(d, env.factories, env.w);
      var r := ConstructDependency(env, d, s, fuel);
      m.Ok? && d.multiple && r.Done? ==>
        r.value.Arr? && |r.value.elems| == |Candidates(d, env.factories, env.w).value|
    ensures var m := MatchFactories(d, env.factories, env.w);
      m.Ok? && !d.multiple && m.value.only.None? ==> ConstructDependency(env, d, s, fuel) == Done(Nil, s)
  {
    var m := MatchFactories(d, env.factories, env.w);
    if m.Ok? && d.multiple {
      var cs := Candidates(d, env.factories, env.w).value;
      assert m.value == Many(cs);
      var o := MapCandidates(env, d, cs, s, fuel);
      assert ConstructDependency(env, d, s, fuel) == if o.Fail? then Fail(o.err, o.s) else Done(Arr(o.value), o.s);
    }
  }
}
