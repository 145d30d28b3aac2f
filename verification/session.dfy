/**
 * The construction session: how a container builds what is asked of it.
 *
 * Phase 1 builds an object after building its constructor dependencies,
 * depth first, keeping a stack of the factories under construction so that a
 * constructor cycle is reported rather than followed. Every object built is
 * queued for phase 2, which pops the queue (last built first), constructs the
 * object's setter dependencies (possibly queueing more objects) and injects
 * them. Whatever got through phase 2 is post-initialised at the end, even
 * when the session fails.
 *
 * Two engines share this shape: the Container's own private methods (Legacy)
 * and ConstructionSession (Current), which also wraps construction errors and
 * can hand out factory handles. The recursion is bounded by a fuel argument.
 */
module Sessions {
  import opened Base
  import opened OrderedMaps
  import opened Classes
  import opened Errors
  import opened Values
  import opened FactoryInterface
  import opened Dependencies

  datatype Engine = Legacy | Current

  /** What a session reads and never changes: the program, the registered factories, the engine. */
  datatype Env = Env(w: World, factories: seq<Factory>, engine: Engine)

  /**
   * The state of one session: the container's singleton slots (a key is
   * present iff the factory was added as a singleton; `Nil` until built), the
   * identity the next built object gets, the phase-1 stack, the phase-2 queue,
   * the post-initialisation queue, and what has been done to objects so far.
   */
  datatype Session = Session(slots: map<Key, Value>, next: nat, stack: seq<Key>,
                             phase2: seq<(Factory, Value)>, postInit: seq<(Factory, Value)>,
                             effects: seq<Effect>)

  datatype Outcome<T> = Done(value: T, s: Session) | Fail(err: Failure, s: Session)

  /**
   * What any part of phase 1 may do to a session: slots keep their keys, a
   * slot already holding a truthy instance or belonging to a factory on the
   * stack keeps its value, the stack is restored on success (and only grown on
   * failure), the phase-2 queue only grows, and nothing is injected or
   * post-initialised.
   */
  ghost predicate Phase1(s: Session, s': Session, done: bool) {
    && s'.slots.Keys == s.slots.Keys
    && (forall k {:trigger s'.slots[k]} :: k in s.slots && (Truthy(s.slots[k]) || k in s.stack) ==> s'.slots[k] == s.slots[k])
    && (if done then s'.stack == s.stack else IsPrefix(s.stack, s'.stack))
    && IsPrefix(s.phase2, s'.phase2)
    && s.next <= s'.next
    && s'.postInit == s.postInit
    && s'.effects == s.effects
  }

  /** Every object phase 1 built (one identity each) was queued for phase 2 exactly once. */
  ghost predicate Balanced(s: Session, s': Session) {
    |s'.phase2| + s.next == |s.phase2| + s'.next
  }

  /** A singleton slot holding a truthy instance: the cached object. */
  predicate Cached(s: Session, k: Key) {
    k in s.slots && Truthy(s.slots[k])
  }

  /**
   * What an error raised by `new_from_dependencies` becomes: the Current
   * engine re-raises Wirer errors and wraps every other StandardError in a
   * DependencyConstructionError with the original as its cause; errors outside
   * StandardError, and every error in the Legacy engine, pass unchanged.
   */
  function BuildFailure(engine: Engine, c: ErrorClass): (e: Failure)
    ensures engine.Legacy? ==> e == Raised(c)
    ensures engine.Current? ==> (e.ConstructionFailed? <==> IsStandardError(c) && !IsWirerError(c))
    ensures e.ConstructionFailed? ==> e.cause == Raised(c)
    ensures !e.ConstructionFailed? ==> e == Raised(c)
  {
    if engine.Current? && IsStandardError(c) && !IsWirerError(c) then ConstructionFailed(Raised(c)) else Raised(c)
  }

  /**
   * In the Current engine every failure of a build reaches the caller as a
   * Wirer error or as something outside StandardError, never as a bare
   * StandardError of another kind.
   */
  lemma CurrentBuildFailures(c: ErrorClass)
    ensures var k := FailureClass(BuildFailure(Current, c)).value;
      IsWirerError(k) || !IsStandardError(k)
  {
    WirerFamily(DependencyConstructionError);
  }

  /**
   * `construct_factory_without_args`: the cached singleton if its slot is
   * truthy; a cycle error if the factory is already on the stack; otherwise
   * build it with the factory pushed on the stack, store it in its slot if it
   * is a singleton, and queue it for phase 2.
   */
  function WithoutArgs(env: Env, f: Factory, s: Session, fuel: nat): (r: Outcome<Value>)
    ensures Phase1(s, r.s, r.Done?)
    ensures r.Done? ==> Balanced(s, r.s)
    ensures Cached(s, f.key) ==> r == Done(s.slots[f.key], s)
    ensures r.Done? && f.key in r.s.slots ==> r.s.slots[f.key] == r.value
    ensures r.Done? && !Cached(s, f.key) ==> |r.s.phase2| > |s.phase2| && r.s.phase2[|r.s.phase2| - 1] == (f, r.value)
    ensures !Cached(s, f.key) && f.key in s.stack ==> r.Fail? && r.err.Cyclic?
    decreases fuel, 1, 0
  {
    if Cached(s, f.key) then Done(s.slots[f.key], s)
    else if f.key in s.stack then Fail(Cyclic(s.stack[Index(s.stack, f.key)..] + [f.key]), s)
    else if fuel == 0 then Fail(OutOfFuel, s)
    else
      match BuildWithDeps(env, f, [], s.(stack := s.stack + [f.key]), fuel - 1)
      case Fail(e, s1) => Fail(e, s1)
      case Done(v, s1) =>
        SettleKeepsPhase1(f, v, s, s1);
        Done(v, Settle(f, v, s1))
  }

  /** After a build without arguments: pop the stack, fill the singleton slot, queue for phase 2. */
  function Settle(f: Factory, v: Value, s1: Session): Session
    requires |s1.stack| > 0
  {
    var slots := if f.key in s1.slots then s1.slots[f.key := v] else s1.slots;
    s1.(stack := s1.stack[..|s1.stack| - 1], slots := slots, phase2 := s1.phase2 + [(f, v)])
  }

  lemma SettleKeepsPhase1(f: Factory, v: Value, s: Session, s1: Session)
    requires !Cached(s, f.key) && f.key !in s.stack
    requires Phase1(s.(stack := s.stack + [f.key]), s1, true)
    requires |s1.phase2| + s.next + 1 == |s.phase2| + s1.next
    ensures |s1.stack| > 0
    ensures var t := Settle(f, v, s1);
      && Phase1(s, t, true) && Balanced(s, t)
      && (f.key in t.slots ==> t.slots[f.key] == v)
      && |t.phase2| > |s.phase2| && t.phase2[|t.phase2| - 1] == (f, v)
  {
    var t := Settle(f, v, s1);
    assert s1.stack == s.stack + [f.key];
    assert t.stack == s.stack;
    assert t.phase2[..|s.phase2|] == s1.phase2[..|s.phase2|];
    forall k | k in s.slots && (Truthy(s.slots[k]) || k in s.stack)
      ensures t.slots[k] == s.slots[k]
    {
      assert k != f.key;
      if k in s.stack {
        assert k in s.stack + [f.key];
      }
    }
  }

  /**
   * `construct_with_constructor_dependencies`: construct the constructor
   * dependencies in order, then call `new_from_dependencies` with them and the
   * arguments; the new object takes the next identity.
   */
  function BuildWithDeps(env: Env, f: Factory, args: seq<Value>, s: Session, fuel: nat): (r: Outcome<Value>)
    ensures Phase1(s, r.s, r.Done?)
    ensures r.Done? ==> |r.s.phase2| + s.next + 1 == |s.phase2| + r.s.next
    decreases fuel, 6, 0
  {
    match ConstructEntries(env, ConstructorDependencies(f).entries, Empty(), s, fuel)
    case Fail(e, s1) => Fail(e, s1)
    case Done(deps, s1) =>
      match Build(f, env.w, deps, args, s1.next)
      case Ok(v) => Done(v, s1.(next := s1.next + 1))
      case Err(c) => Fail(BuildFailure(env.engine, c), s1.(next := s1.next + 1))
  }

  /** `construct_dependencies`: each named descriptor constructed in order into a Hash. */
  function ConstructEntries(env: Env, entries: seq<(Value, Dependency)>, acc: OMap<Value, Value>, s: Session, fuel: nat)
    : (r: Outcome<OMap<Value, Value>>)
    ensures Phase1(s, r.s, r.Done?)
    ensures r.Done? ==> Balanced(s, r.s)
    decreases fuel, 5, |entries|
  {
    if |entries| == 0 then Done(acc, s)
    else
      match ConstructDependency(env, entries[0].1, s, fuel)
      case Fail(e, s1) => Fail(e, s1)
      case Done(v, s1) => ConstructEntries(env, entries[1..], Put(acc, entries[0].0, v), s1, fuel)
  }

  /**
   * `construct_dependency`: find the matching factories, then construct every
   * one into an Array for a multiple dependency, or the single one (nil if
   * none) otherwise.
   */
  function ConstructDependency(env: Env, d: Dependency, s: Session, fuel: nat): (r: Outcome<Value>)
    ensures Phase1(s, r.s, r.Done?)
    ensures r.Done? ==> Balanced(s, r.s)
    decreases fuel, 4, 0
  {
    match MatchFactories(d, env.factories, env.w)
    case Err(e) => Fail(Raised(e), s)
    case Ok(Many(cs)) =>
      (match MapCandidates(env, d, cs, s, fuel)
       case Fail(e, s1) => Fail(e, s1)
       case Done(vs, s1) => Done(Arr(vs), s1))
    case Ok(One(None)) => Done(Nil, s)
    case Ok(One(Some(g))) => Callback(env, d, g, s, fuel)
  }

  /** The per-candidate block, applied to the candidates in order. */
  function MapCandidates(env: Env, d: Dependency, cs: seq<Factory>, s: Session, fuel: nat): (r: Outcome<seq<Value>>)
    ensures Phase1(s, r.s, r.Done?)
    ensures r.Done? ==> Balanced(s, r.s) && |r.value| == |cs|
    decreases fuel, 3, |cs|
  {
    if |cs| == 0 then Done([], s)
    else
      match Callback(env, d, cs[0], s, fuel)
      case Fail(e, s1) => Fail(e, s1)
      case Done(v, s1) =>
        match MapCandidates(env, d, cs[1..], s1, fuel)
        case Fail(e, s2) => Fail(e, s2)
        case Done(vs, s2) => Done([v] + vs, s2)
  }

  /**
   * The block given to `match_factories`: build the factory's object, except
   * that in the Current engine a `:factory => true` dependency gets a handle
   * carrying freshly constructed constructor dependencies, and is an error for
   * a singleton factory.
   */
  function Callback(env: Env, d: Dependency, g: Factory, s: Session, fuel: nat): (r: Outcome<Value>)
    ensures Phase1(s, r.s, r.Done?)
    ensures r.Done? ==> Balanced(s, r.s)
    decreases fuel, 2, 0
  {
    if env.engine.Current? && d.handle then
      if g.key in s.slots then Fail(Raised(WirerError), s)
      else if fuel == 0 then Fail(OutOfFuel, s)
      else
        match ConstructEntries(env, ConstructorDependencies(g).entries, Empty(), s, fuel - 1)
        case Fail(e, s1) => Fail(e, s1)
        case Done(deps, s1) => Done(Handle(g, deps), s1)
    else WithoutArgs(env, g, s, fuel)
  }

  /**
   * `construct_factory_with_args`: always a fresh build, bypassing the
   * singleton slot and the cycle stack, then queued for phase 2.
   */
  function WithArgs(env: Env, f: Factory, args: seq<Value>, s: Session, fuel: nat): (r: Outcome<Value>)
    ensures Phase1(s, r.s, r.Done?)
    ensures r.Done? ==> Balanced(s, r.s)
    ensures r.Done? ==> s.next < r.s.next && |r.s.phase2| > |s.phase2| && r.s.phase2[|r.s.phase2| - 1] == (f, r.value)
  {
    if fuel == 0 then Fail(OutOfFuel, s)
    else
      match BuildWithDeps(env, f, args, s, fuel - 1)
      case Fail(e, s1) => Fail(e, s1)
      case Done(v, s1) => Done(v, s1.(phase2 := s1.phase2 + [(f, v)]))
  }

  /** `inject_dependency` for each constructed setter dependency, in order. */
  function InjectAll(w: World, f: Factory, instance: Value, deps: seq<(Value, Value)>, s: Session): (r: Outcome<()>)
    ensures r.s == s.(effects := r.s.effects)
    ensures IsPrefix(s.effects, r.s.effects)
    ensures forall i :: |s.effects| <= i < |r.s.effects| ==> r.s.effects[i].Injected? && r.s.effects[i].target == instance
    ensures r.Done? <==> forall i :: 0 <= i < |deps| ==> (ClassOf(instance), deps[i].0) in w.setters
    ensures r.Done? ==> |r.s.effects| == |s.effects| + |deps|
    ensures r.Done? ==> forall i :: 0 <= i < |deps| ==> r.s.effects[|s.effects| + i] == Injected(instance, deps[i].0, deps[i].1)
    ensures r.Fail? ==> r.err == Raised(NoMethodError)
    decreases |deps|
  {
    if |deps| == 0 then Done((), s)
    else
      InjectSetsNamedAttribute(f, w, instance, deps[0].0, deps[0].1);
      match Inject(f, w, instance, deps[0].0, deps[0].1)
      case Err(c) => Fail(Raised(c), s)
      case Ok(e) =>
        var r := InjectAll(w, f, instance, deps[1..], s.(effects := s.effects + [e]));
        assert forall i :: 0 < i < |deps| ==> deps[i] == deps[1..][i - 1];
        r
  }

  /** `construct_and_inject_setter_dependencies`. */
  function SetterPhase(env: Env, f: Factory, instance: Value, s: Session, fuel: nat): (r: Outcome<()>)
    ensures Keeps(s, r.s) && r.s.postInit == s.postInit
    ensures r.Done? ==> r.s.stack == s.stack
    ensures IsPrefix(s.phase2, r.s.phase2)
    ensures forall i :: |s.effects| <= i < |r.s.effects| ==> r.s.effects[i].target == instance
  {
    match ConstructEntries(env, SetterDependencies(f, instance).entries, Empty(), s, fuel)
    case Fail(e, s1) => Fail(e, s1)
    case Done(deps, s1) => InjectAll(env.w, f, instance, deps.entries, s1)
  }

  /**
   * What phase 2 may do to a session: slots keep their keys and cached
   * instances, the post-initialisation queue and the effects only grow, and
   * the only effects added are injections.
   */
  ghost predicate Keeps(s: Session, t: Session) {
    && t.slots.Keys == s.slots.Keys
    && (forall k {:trigger t.slots[k]} :: Cached(s, k) ==> t.slots[k] == s.slots[k])
    && IsPrefix(s.postInit, t.postInit) && s.next <= t.next
    && IsPrefix(s.effects, t.effects)
    && (forall i {:trigger t.effects[i]} :: |s.effects| <= i < |t.effects| ==> t.effects[i].Injected?)
  }

  lemma KeepsTransitive(a: Session, b: Session, c: Session)
    requires Keeps(a, b) && Keeps(b, c)
    ensures Keeps(a, c)
  {
    forall k | Cached(a, k)
      ensures c.slots[k] == a.slots[k]
    {
      assert b.slots[k] == a.slots[k];
      assert Cached(b, k);
    }
    assert c.postInit[..|a.postInit|] == c.postInit[..|b.postInit|][..|a.postInit|];
    assert c.effects[..|a.effects|] == c.effects[..|b.effects|][..|a.effects|];
    forall i | |a.effects| <= i < |c.effects|
      ensures c.effects[i].Injected?
    {
      if i < |b.effects| {
        assert c.effects[i] == b.effects[i];
      }
    }
  }

  /**
   * The phase-2 loop: pop the last queued object, construct and inject its
   * setter dependencies, then queue it for post-initialisation; until the
   * queue is empty.
   */
  function Drain(env: Env, s: Session, fuel: nat): Outcome<()>
    decreases fuel
  {
    if |s.phase2| == 0 then Done((), s)
    else if fuel == 0 then Fail(OutOfFuel, s)
    else
      var p := s.phase2[|s.phase2| - 1];
      match SetterPhase(env, p.0, p.1, s.(phase2 := s.phase2[..|s.phase2| - 1]), fuel - 1)
      case Fail(e, s2) => Fail(e, s2)
      case Done(_, s2) => Drain(env, s2.(postInit := s2.postInit + [p]), fuel - 1)
  }

  /** One round of the phase-2 loop, as the loop's definition gives it. */
  lemma DrainUnfold(env: Env, s: Session, fuel: nat)
    requires |s.phase2| > 0 && fuel > 0
    ensures var p := s.phase2[|s.phase2| - 1];
      var o := SetterPhase(env, p.0, p.1, s.(phase2 := s.phase2[..|s.phase2| - 1]), fuel - 1);
      Drain(env, s, fuel) == if o.Fail? then Fail(o.err, o.s) else Drain(env, o.s.(postInit := o.s.postInit + [p]), fuel - 1)
  {
  }

  /**
   * What a successful phase 2 leaves: its queue empty, the stack as it was,
   * and every object that was queued (and every object queued while it ran)
   * moved to the post-initialisation queue, the last queued first.
   */
  ghost predicate Emptied(s: Session, t: Session) {
    && t.stack == s.stack && t.phase2 == []
    && multiset(s.phase2) + multiset(s.postInit) <= multiset(t.postInit)
    && (|s.phase2| > 0 ==> |t.postInit| > |s.postInit| && t.postInit[|s.postInit|] == s.phase2[|s.phase2| - 1])
  }

  /** What phase 2 does, successful or not. */
  ghost predicate Drained(s: Session, r: Outcome<()>) {
    Keeps(s, r.s) && (r.Done? ==> Emptied(s, r.s))
  }

  /** Phase 2 keeps what each round keeps, and when it succeeds it has emptied its queue. */
  lemma {:induction false} DrainProperties(env: Env, s: Session, fuel: nat)
    ensures Drained(s, Drain(env, s, fuel))
    decreases fuel
  {
    if |s.phase2| > 0 && fuel > 0 {
      var p := s.phase2[|s.phase2| - 1];
      var o := SetterPhase(env, p.0, p.1, s.(phase2 := s.phase2[..|s.phase2| - 1]), fuel - 1);
      if o.Done? {
        var s3 := o.s.(postInit := o.s.postInit + [p]);
        DrainProperties(env, s3, fuel - 1);
        RoundDone(env, s, fuel, Drain(env, s3, fuel - 1));
      } else {
        RoundFailed(env, s, fuel);
      }
    } else {
      var r := Drain(env, s, fuel);
      assert r.s == s && (r.Done? <==> |s.phase2| == 0);
      NothingDrained(s, r);
    }
  }

  /** A round that gets through, followed by the rest of phase 2 with outcome `r`, is phase 2 with outcome `r`. */
  lemma RoundDone(env: Env, s: Session, fuel: nat, r: Outcome<()>)
    requires |s.phase2| > 0 && fuel > 0
    requires var p := s.phase2[|s.phase2| - 1];
      var o := SetterPhase(env, p.0, p.1, s.(phase2 := s.phase2[..|s.phase2| - 1]), fuel - 1);
      o.Done? && Drained(o.s.(postInit := o.s.postInit + [p]), r) && Drain(env, o.s.(postInit := o.s.postInit + [p]), fuel - 1) == r
    ensures Drained(s, r) && Drain(env, s, fuel) == r
  {
    DrainUnfold(env, s, fuel);
    var p := s.phase2[|s.phase2| - 1];
    var s1 := s.(phase2 := s.phase2[..|s.phase2| - 1]);
    var o := SetterPhase(env, p.0, p.1, s1, fuel - 1);
    RoundComposes(s, p, s1, o.s, o.s.(postInit := o.s.postInit + [p]), r);
  }

  /** A round that fails ends phase 2 with its failure. */
  lemma RoundFailed(env: Env, s: Session, fuel: nat)
    requires |s.phase2| > 0 && fuel > 0
    requires var p := s.phase2[|s.phase2| - 1];
      SetterPhase(env, p.0, p.1, s.(phase2 := s.phase2[..|s.phase2| - 1]), fuel - 1).Fail?
    ensures Drained(s, Drain(env, s, fuel))
  {
    DrainUnfold(env, s, fuel);
    var p := s.phase2[|s.phase2| - 1];
    var s1 := s.(phase2 := s.phase2[..|s.phase2| - 1]);
    RoundFails(s, s1, SetterPhase(env, p.0, p.1, s1, fuel - 1));
  }

  lemma NothingDrained(s: Session, r: Outcome<()>)
    requires r.s == s && (r.Done? ==> |s.phase2| == 0)
    ensures Drained(s, r)
  {
    assert s.postInit[..|s.postInit|] == s.postInit;
    assert s.effects[..|s.effects|] == s.effects;
  }

  lemma RoundFails(s: Session, s1: Session, o: Outcome<()>)
    requires |s.phase2| > 0 && s1 == s.(phase2 := s.phase2[..|s.phase2| - 1])
    requires Keeps(s1, o.s) && o.Fail?
    ensures Drained(s, Fail(o.err, o.s))
  {
    assert forall k :: Cached(s, k) == Cached(s1, k);
  }

  /** One round followed by the rest of phase 2 is phase 2. */
  lemma RoundComposes(s: Session, p: (Factory, Value), s1: Session, s2: Session, s3: Session, r: Outcome<()>)
    requires |s.phase2| > 0 && p == s.phase2[|s.phase2| - 1]
    requires s1 == s.(phase2 := s.phase2[..|s.phase2| - 1])
    requires Keeps(s1, s2) && IsPrefix(s1.phase2, s2.phase2) && s2.postInit == s1.postInit && s2.stack == s1.stack
    requires s3 == s2.(postInit := s2.postInit + [p])
    requires Drained(s3, r)
    ensures Drained(s, r)
  {
    assert Keeps(s, s2) by {
      assert forall k :: Cached(s, k) == Cached(s1, k);
    }
    assert Keeps(s2, s3) by {
      assert s3.postInit[..|s2.postInit|] == s2.postInit;
      assert forall k :: Cached(s2, k) ==> s3.slots[k] == s2.slots[k];
    }
    KeepsTransitive(s, s2, s3);
    KeepsTransitive(s, s3, r.s);
    if r.Done? {
      var t := r.s;
      assert s.phase2 == s1.phase2 + [p];
      assert multiset(s1.phase2) <= multiset(s2.phase2) by {
        assert s2.phase2 == s1.phase2 + s2.phase2[|s1.phase2|..];
      }
      assert t.postInit[..|s3.postInit|] == s3.postInit;
      assert t.postInit[|s.postInit|] == s3.postInit[|s.postInit|];
    }
  }

  /**
   * The notifications a post-initialisation queue is owed: one for each
   * queued object whose class defines the hook, in queue order.
   */
  function Notices(hooked: set<ClassId>, queue: seq<(Factory, Value)>): seq<Effect>
    decreases |queue|
  {
    if |queue| == 0 then []
    else (if ClassOf(queue[0].1) in hooked then [Notified(queue[0].1)] else []) + Notices(hooked, queue[1..])
  }

  /**
   * Every notice is a notification, and an object is noticed exactly when it
   * is queued and its class defines the hook.
   */
  lemma {:induction false} NoticesSpec(hooked: set<ClassId>, queue: seq<(Factory, Value)>)
    ensures forall i :: 0 <= i < |Notices(hooked, queue)| ==> Notices(hooked, queue)[i].Notified?
    ensures forall x :: Notified(x) in Notices(hooked, queue) <==> exists i :: 0 <= i < |queue| && queue[i].1 == x && ClassOf(x) in hooked
    decreases |queue|
  {
    if |queue| > 0 {
      NoticesSpec(hooked, queue[1..]);
      assert forall i :: 0 < i < |queue| ==> queue[i] == queue[1..][i - 1];
      forall x | exists i :: 0 <= i < |queue| && queue[i].1 == x && ClassOf(x) in hooked
        ensures Notified(x) in Notices(hooked, queue)
      {
        var i :| 0 <= i < |queue| && queue[i].1 == x && ClassOf(x) in hooked;
        if i > 0 {
          assert queue[1..][i - 1].1 == x;
        }
      }
    }
  }

  /**
   * `post_initialize(queue)`: the hooks of the queued objects, run in queue
   * order through each object's own factory (and so through any wrappers).
   */
  function PostInitAll(w: World, queue: seq<(Factory, Value)>, effects: seq<Effect>): (r: seq<Effect>)
    ensures r == effects + Notices(w.hooked, queue)
    decreases |queue|
  {
    if |queue| == 0 then effects
    else
      PostInitializeIffHooked(queue[0].0, w, queue[0].1);
      var e := match PostInitialize(queue[0].0, w, queue[0].1) case Some(n) => effects + [n] case None => effects;
      var r := PostInitAll(w, queue[1..], e);
      assert e == effects + (if ClassOf(queue[0].1) in w.hooked then [Notified(queue[0].1)] else []);
      r
  }

  /**
   * What is asked of a session: a factory (nil when the method name is not
   * registered) with arguments and whether a block was given, or a dependency
   * described by `Dependency.new_from_args` arguments.
   */
  datatype Request = ByFactory(factory: Option<Factory>, args: seq<Value>, hasBlock: bool) | ByDependency(depArgs: seq<Value>)

  /**
   * The body of the session. A missing factory gets as far as asking nil for
   * its constructor dependencies, a NoMethodError.
   */
  function Perform(env: Env, req: Request, s: Session, fuel: nat): (r: Outcome<Value>)
    ensures Phase1(s, r.s, r.Done?)
    ensures r.Done? ==> Balanced(s, r.s)
  {
    match req
    case ByFactory(None, _, _) => Fail(Raised(NoMethodError), s)
    case ByFactory(Some(f), args, hasBlock) =>
      if args == [] && !hasBlock then WithoutArgs(env, f, s, fuel) else WithArgs(env, f, args, s, fuel)
    case ByDependency(depArgs) =>
      match NewFromArgs(depArgs)
      case Err(e) => Fail(Raised(e), s)
      case Ok(d) => ConstructDependency(env, d, s, fuel)
  }

  /** What a session leaves behind: its result, the singleton slots, the next identity, and its effects. */
  datatype SessionResult = SessionResult(result: Result<Value, Failure>, slots: map<Key, Value>, next: nat, effects: seq<Effect>)

  /** The session's state when phase 2 ends, successfully or not, just before post-initialisation. */
  function Finish(env: Env, req: Request, slots: map<Key, Value>, next: nat, fuel: nat): (r: (Result<Value, Failure>, Session))
    ensures r.1.slots.Keys == slots.Keys
    ensures forall k {:trigger r.1.slots[k]} :: k in slots && Truthy(slots[k]) ==> r.1.slots[k] == slots[k]
    ensures next <= r.1.next
    ensures forall i :: 0 <= i < |r.1.effects| ==> r.1.effects[i].Injected?
  {
    var s0 := Session(slots, next, [], [], [], []);
    match Perform(env, req, s0, fuel)
    case Fail(e, s1) => (Err(e), s1)
    case Done(v, s1) =>
      DrainProperties(env, s1, fuel);
      assert forall k :: k in slots && Truthy(slots[k]) ==> Cached(s1, k);
      match Drain(env, s1, fuel)
      case Fail(e, s2) => (Err(e), s2)
      case Done(_, s2) => (Ok(v), s2)
  }

  /**
   * `construction_session { ... }`: the request, then phase 2, then (in every
   * case) post-initialisation of what got through phase 2.
   */
  function RunSession(env: Env, req: Request, slots: map<Key, Value>, next: nat, fuel: nat): (r: SessionResult)
    ensures r.slots.Keys == slots.Keys
    ensures forall k {:trigger r.slots[k]} :: k in slots && Truthy(slots[k]) ==> r.slots[k] == slots[k]
    ensures next <= r.next
    ensures forall i, j :: 0 <= i < j < |r.effects| && r.effects[i].Notified? ==> r.effects[j].Notified?
  {
    var (res, s) := Finish(env, req, slots, next, fuel);
    var effects := PostInitAll(env.w, s.postInit, s.effects);
    NoticesSpec(env.w.hooked, s.postInit);
    assert effects[..|s.effects|] == s.effects;
    NotifiedAfterInjected(s.effects, effects);
    SessionResult(res, s.slots, s.next, effects)
  }

  /**
   * Post-initialisation sits in an `ensure` clause: whatever the session's
   * result, and in particular when it fails part-way through phase 2, every
   * object that got through its setter injection is post-initialised, in the
   * order it got through, exactly when its class defines the hook, and after
   * every injection.
   */
  lemma PostInitialisedEvenOnFailure(env: Env, req: Request, slots: map<Key, Value>, next: nat, fuel: nat)
    ensures var (res, s) := Finish(env, req, slots, next, fuel);
      var r := RunSession(env, req, slots, next, fuel);
      && r.result == res
      && r.effects == s.effects + Notices(env.w.hooked, s.postInit)
      && (forall i :: 0 <= i < |s.postInit| && ClassOf(s.postInit[i].1) in env.w.hooked ==> Notified(s.postInit[i].1) in r.effects)
  {
    var (res, s) := Finish(env, req, slots, next, fuel);
    var r := RunSession(env, req, slots, next, fuel);
    forall i | 0 <= i < |s.postInit| && ClassOf(s.postInit[i].1) in env.w.hooked
      ensures Notified(s.postInit[i].1) in r.effects
    {
      NoticesSpec(env.w.hooked, s.postInit);
      assert Notified(s.postInit[i].1) in Notices(env.w.hooked, s.postInit);
    }
  }

  /** Injections followed only by notifications: no notification comes before an injection. */
  lemma NotifiedAfterInjected(injected: seq<Effect>, r: seq<Effect>)
    requires IsPrefix(injected, r)
    requires forall i :: 0 <= i < |injected| ==> injected[i].Injected?
    requires forall i :: |injected| <= i < |r| ==> r[i].Notified?
    ensures forall i, j :: 0 <= i < j < |r| && r[i].Notified? ==> r[j].Notified?
  {
    forall i | 0 <= i < |injected|
      ensures r[i].Injected?
    {
      assert r[i] == r[..|injected|][i];
    }
  }
}
