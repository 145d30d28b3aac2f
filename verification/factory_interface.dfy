/**
 * Wirer::Factory::Interface and how each factory variant answers it: the class
 * and features it provides, its constructor and setter dependency tables, how
 * it builds an instance from constructed dependencies and extra arguments, and
 * how it injects a setter dependency or notifies a finished instance.
 */
module FactoryInterface {
  import opened Base
  import opened OrderedMaps
  import opened Classes
  import opened Errors
  import opened Values

  /** `provides_class`. A wrapper copied its wrapped factory's answer when it was made. */
  function ProvidesClass(f: Factory): ClassId {
    match f
    case Stub(_) => ObjectId
    case FromArgs(_, cls, _, _, _, _, _) => cls.id
    case ClassFactory(_, cls, _, _, _) => cls.id
    case FromInstance(_, instance, _) => ClassOf(instance)
    case Wrapped(_, _, cls, _, _, _, _, _) => cls
  }

  /** `provides_features`. */
  function ProvidesFeatures(f: Factory): seq<Value> {
    match f
    case Stub(_) => []
    case FromArgs(_, _, _, _, features, _, _) => features
    case ClassFactory(_, _, _, _, features) => features
    case FromInstance(_, _, features) => features
    case Wrapped(_, _, _, features, _, _, _, _) => features
  }

  /** `constructor_dependencies`. */
  function ConstructorDependencies(f: Factory): DepTable {
    match f
    case Stub(_) => Empty()
    case FromArgs(_, _, ctorDeps, _, _, _, _) => ctorDeps
    case ClassFactory(_, _, ctorDeps, _, _) => ctorDeps
    case FromInstance(_, _, _) => Empty()
    case Wrapped(_, _, _, _, ctorDeps, _, _, _) => ctorDeps
  }

  /**
   * `setter_dependencies(instance)`. A wrapper without refined setter
   * dependencies asks its wrapped factory, passing the instance on.
   */
  function SetterDependencies(f: Factory, instance: Value): DepTable {
    match f
    case Stub(_) => Empty()
    case FromArgs(_, _, _, setterDeps, _, _, _) => setterDeps
    case ClassFactory(_, _, _, setterDeps, _) => setterDeps
    case FromInstance(_, _, _) => Empty()
    case Wrapped(_, inner, _, _, _, staticSetterDeps, _, _) =>
      match staticSetterDeps
      case Some(t) => t
      case None => SetterDependencies(inner, instance)
  }

  /**
   * No factory variant here varies its setter dependencies with the instance:
   * the interface default, FromArgs and the class DSL all ignore it, and a
   * wrapper either has a fixed table or asks one of those.
   */
  lemma {:induction false} SetterDependenciesIgnoreInstance(f: Factory, i1: Value, i2: Value)
    ensures SetterDependencies(f, i1) == SetterDependencies(f, i2)
  {
    if f.Wrapped? && f.staticSetterDeps.None? {
      SetterDependenciesIgnoreInstance(f.inner, i1, i2);
    }
  }

  /** A factory that only includes the interface provides Object, no features and no dependencies. */
  lemma InterfaceDefaults(k: Key, w: World, instance: Value)
    ensures ProvidesClass(Stub(k)) == ObjectId
    ensures ProvidesFeatures(Stub(k)) == []
    ensures ConstructorDependencies(Stub(k)) == Empty()
    ensures SetterDependencies(Stub(k), instance) == Empty()
    ensures Build(Stub(k), w, Empty(), [], 0) == Err(NotImplementedError)
  {
  }

  /**
   * A constant-instance factory provides the instance's class and the features
   * it was given, depends on nothing, and returns the same instance whatever
   * dependencies it is handed; any further argument is an ArgumentError.
   */
  lemma FromInstanceAnswers(k: Key, w: World, instance: Value, features: seq<Value>, deps: OMap<Value, Value>, args: seq<Value>, id: nat)
    ensures var f := FromInstance(k, instance, features);
      && ProvidesClass(f) == ClassOf(instance) && ProvidesFeatures(f) == features
      && ConstructorDependencies(f) == Empty() && SetterDependencies(f, instance) == Empty()
      && Build(f, w, deps, args, id) == if args == [] then Ok(instance) else Err(ArgumentError)
  {
  }

  /**
   * The default constructor argument shaping of FromArgs and the class mixin:
   * the dependencies hash is merged into a trailing Hash argument (its own
   * entries win on a clash), or else appended as a last argument unless empty.
   */
  function MergeDependencies(args: seq<Value>, deps: OMap<Value, Value>): (r: seq<Value>)
    ensures |args| > 0 && args[|args| - 1].HashV? ==>
      |r| == |args| && r[..|r| - 1] == args[..|args| - 1] && r[|r| - 1].HashV?
    ensures !(|args| > 0 && args[|args| - 1].HashV?) && deps.entries == [] ==> r == args
    ensures !(|args| > 0 && args[|args| - 1].HashV?) && deps.entries != [] ==> r == args + [HashV(deps)]
  {
    if |args| > 0 && args[|args| - 1].HashV? then
      args[..|args| - 1] + [HashV(Merge(args[|args| - 1].h, deps))]
    else if deps.entries == [] then args
    else args + [HashV(deps)]
  }

  /**
   * Every constructed dependency reaches the constructor: when there are any,
   * the last argument is a Hash mapping each dependency name to its value.
   * A trailing Hash argument keeps the keys the dependencies do not mention.
   */
  lemma DependenciesDelivered(args: seq<Value>, deps: OMap<Value, Value>, k: Value)
    requires Valid(deps)
    requires HasKey(deps, k) || (|args| > 0 && args[|args| - 1].HashV?)
    ensures var r := MergeDependencies(args, deps);
      && |r| > 0 && r[|r| - 1].HashV?
      && Get(r[|r| - 1].h, k) == if HasKey(deps, k) then Get(deps, k) else Get(args[|args| - 1].h, k)
  {
    if |args| > 0 && args[|args| - 1].HashV? {
      MergeGet(args[|args| - 1].h, deps, k);
    }
  }

  /**
   * Prepending initial arguments: an Array is spread in front of the call's
   * arguments, any other value goes in front as one argument.
   */
  function PrependInitial(initial: Option<Value>, args: seq<Value>): (r: seq<Value>)
    ensures |r| >= |args| && r[|r| - |args|..] == args
    ensures initial.None? ==> r == args
    ensures initial.Some? && initial.value.Arr? ==> r == initial.value.elems + args
    ensures initial.Some? && !initial.value.Arr? ==> |r| == |args| + 1 && r[0] == initial.value
  {
    match initial
    case None => args
    case Some(Arr(xs)) => xs + args
    case Some(v) => [v] + args
  }

  /** Calling an opaque constructor block; `id` names the object it may allocate. */
  function RunBlock(b: Block, blockArgs: seq<Value>, id: nat): (r: Result<Value, ErrorClass>)
    ensures b.result.Allocates? ==> r == Ok(New(id, b.result.cls, blockArgs))
    ensures b.result.Returns? ==> r == Ok(b.result.v)
    ensures b.result.Raises? ==> r == Err(b.result.err)
  {
    match b.result
    case Allocates(c) => Ok(New(id, c, blockArgs))
    case Returns(v) => Ok(v)
    case Raises(e) => Err(e)
  }

  /**
   * `klass.new(*args)`: a new object of the class, with identity `id`,
   * recording the arguments its constructor received, unless the class's
   * `new` raises.
   */
  function Instantiate(w: World, cls: ClassId, args: seq<Value>, id: nat): Result<Value, ErrorClass> {
    if cls in w.failing then Err(w.failing[cls]) else Ok(New(id, cls, args))
  }

  /**
   * `new_from_dependencies(deps, *args)`. An object it allocates gets the
   * identity `id` and records the arguments its constructor received.
   */
  function Build(f: Factory, w: World, deps: OMap<Value, Value>, args: seq<Value>, id: nat): Result<Value, ErrorClass> {
    match f
    case Stub(_) => Err(NotImplementedError)
    case FromArgs(_, cls, _, _, _, block, initialArgs) =>
      if block.Some? then RunBlock(block.value, [HashV(deps)] + args, id)
      else Instantiate(w, cls.id, PrependInitial(initialArgs, MergeDependencies(args, deps)), id)
    case ClassFactory(_, cls, _, _, _) => Instantiate(w, cls.id, MergeDependencies(args, deps), id)
    case FromInstance(_, instance, _) => if args == [] then Ok(instance) else Err(ArgumentError)
    case Wrapped(_, inner, _, _, _, _, initialArgs, block) =>
      if block.Some? then RunBlock(block.value, [HashV(deps)] + args, id)
      else Build(inner, w, deps, PrependInitial(initialArgs, args), id)
  }

  /** The interface default `inject_dependency`: call the attribute's setter. */
  function DefaultInject(w: World, instance: Value, name: Value, value: Value): Result<Effect, ErrorClass> {
    if (ClassOf(instance), name) in w.setters then Ok(Injected(instance, name, value)) else Err(NoMethodError)
  }

  /** `inject_dependency`; a wrapper hands it to the factory it wraps. */
  function Inject(f: Factory, w: World, instance: Value, name: Value, value: Value): Result<Effect, ErrorClass> {
    match f
    case Wrapped(_, inner, _, _, _, _, _, _) => Inject(inner, w, instance, name, value)
    case _ => DefaultInject(w, instance, name, value)
  }

  /**
   * Injection sets exactly the named attribute of the instance to the value,
   * through whatever chain of wrappers, and fails exactly when the instance's
   * class defines no such setter.
   */
  lemma {:induction false} InjectSetsNamedAttribute(f: Factory, w: World, instance: Value, name: Value, value: Value)
    ensures Inject(f, w, instance, name, value).Ok? <==> (ClassOf(instance), name) in w.setters
    ensures Inject(f, w, instance, name, value).Ok? ==> Inject(f, w, instance, name, value).value == Injected(instance, name, value)
    ensures Inject(f, w, instance, name, value).Err? ==> Inject(f, w, instance, name, value).error == NoMethodError
  {
    if f.Wrapped? {
      InjectSetsNamedAttribute(f.inner, w, instance, name, value);
    }
  }

  /** `post_initialize`: the notification, if the instance defines the hook; a wrapper delegates. */
  function PostInitialize(f: Factory, w: World, instance: Value): Option<Effect> {
    match f
    case Wrapped(_, inner, _, _, _, _, _, _) => PostInitialize(inner, w, instance)
    case _ => if ClassOf(instance) in w.hooked then Some(Notified(instance)) else None
  }

  /** The hook runs iff the instance has one, whatever factory (or wrapper chain) made it. */
  lemma {:induction false} PostInitializeIffHooked(f: Factory, w: World, instance: Value)
    ensures PostInitialize(f, w, instance).Some? <==> ClassOf(instance) in w.hooked
    ensures PostInitialize(f, w, instance).Some? ==> PostInitialize(f, w, instance).value == Notified(instance)
  {
    if f.Wrapped? {
      PostInitializeIffHooked(f.inner, w, instance);
    }
  }
}
