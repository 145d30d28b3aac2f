/**
 * Wirer::Factory::ClassMixin and Wirer::Factory::ClassDSL: a class that is its
 * own factory. A DSL class starts from copies of its superclass's dependency
 * tables and features, and its declarations add to its own copies.
 */
module ClassDsl {
  import opened Base
  import opened OrderedMaps
  import opened Classes
  import opened Errors
  import opened Values
  import opened FactoryInterface
  import opened Dependencies

  /**
   * A class extended with ClassMixin alone: it provides itself and declares
   * nothing, so it has the interface's empty tables and no features.
   */
  function ClassMixin(key: Key, cls: Mod): (f: Factory)
    ensures FactoryObjectClass(f) == "Class"
    ensures ProvidesClass(f) == cls.id
    ensures ConstructorDependencies(f) == Empty() && ProvidesFeatures(f) == []
    ensures forall instance :: SetterDependencies(f, instance) == Empty()
  {
    ClassFactory(key, cls, Empty(), Empty(), [])
  }

  /**
   * How a class factory builds: `new` on the class, with the dependencies
   * merged into a trailing Hash argument or appended unless empty, so that with
   * no arguments and no dependencies it is a plain `new()`; whatever that `new`
   * raises is what the build raises.
   */
  lemma ClassMixinBuild(f: Factory, w: World, deps: OMap<Value, Value>, args: seq<Value>, id: nat)
    requires f.ClassFactory?
    ensures ProvidesClass(f) !in w.failing ==> Build(f, w, deps, args, id) == Ok(New(id, ProvidesClass(f), MergeDependencies(args, deps)))
    ensures ProvidesClass(f) !in w.failing && args == [] && deps.entries == [] ==> Build(f, w, deps, args, id) == Ok(New(id, ProvidesClass(f), []))
    ensures ProvidesClass(f) in w.failing ==> Build(f, w, deps, args, id) == Err(w.failing[ProvidesClass(f)])
  {
  }

  /**
   * The tables a DSL class starts from: copies of its superclass's when the
   * superclass is itself a factory, empty ones otherwise.
   */
  function Inherit(key: Key, cls: Mod, superclass: Value): (f: Factory)
    ensures f.ClassFactory? && f.key == key && ProvidesClass(f) == cls.id
    ensures superclass.FactoryV? ==>
      && ConstructorDependencies(f) == ConstructorDependencies(superclass.f)
      && SetterDependencies(f, Nil) == SetterDependencies(superclass.f, Nil)
      && ProvidesFeatures(f) == ProvidesFeatures(superclass.f)
    ensures !superclass.FactoryV? ==>
      ConstructorDependencies(f) == Empty() && SetterDependencies(f, Nil) == Empty() && ProvidesFeatures(f) == []
  {
    match superclass
    case FactoryV(p) => ClassFactory(key, cls, ConstructorDependencies(p), SetterDependencies(p, Nil), ProvidesFeatures(p))
    case _ => ClassFactory(key, cls, Empty(), Empty(), [])
  }

  /**
   * `add_dependency(type, name, *args)`: the descriptor made from the
   * arguments is bound to the name in the setter table when the type is
   * `:setter` and in the constructor table otherwise, replacing any earlier
   * declaration of that name; the other table and the features are untouched.
   */
  function AddDependency(c: Factory, kind: Value, name: Value, args: seq<Value>): (r: Result<Factory, ErrorClass>)
    requires c.ClassFactory?
    ensures r.Err? <==> NewFromArgs(args).Err?
    ensures r.Ok? ==> r.value.ClassFactory? && r.value.key == c.key && r.value.cls == c.cls && r.value.features == c.features
    ensures r.Ok? && kind == Sym("setter") ==>
      && Get(r.value.setterDeps, name) == Some(NewFromArgs(args).value)
      && (forall k :: k != name ==> Get(r.value.setterDeps, k) == Get(c.setterDeps, k))
      && r.value.ctorDeps == c.ctorDeps
    ensures r.Ok? && kind != Sym("setter") ==>
      && Get(r.value.ctorDeps, name) == Some(NewFromArgs(args).value)
      && (forall k :: k != name ==> Get(r.value.ctorDeps, k) == Get(c.ctorDeps, k))
      && r.value.setterDeps == c.setterDeps
  {
    match NewFromArgs(args)
    case Err(e) => Err(e)
    case Ok(d) =>
      if kind == Sym("setter") then Ok(ClassFactory(c.key, c.cls, c.ctorDeps, Put(c.setterDeps, name, d), c.features))
      else Ok(ClassFactory(c.key, c.cls, Put(c.ctorDeps, name, d), c.setterDeps, c.features))
  }

  /** `constructor_dependency name, *args` (alias `dependency`); the `:getter` accessor is not modelled. */
  function ConstructorDependency(c: Factory, name: Value, args: seq<Value>): Result<Factory, ErrorClass>
    requires c.ClassFactory?
  {
    AddDependency(c, Sym("constructor"), name, args)
  }

  /** `setter_dependency name, *args`; the generated writer and reader are not modelled. */
  function SetterDependency(c: Factory, name: Value, args: seq<Value>): Result<Factory, ErrorClass>
    requires c.ClassFactory?
  {
    AddDependency(c, Sym("setter"), name, args)
  }

  /** `provides_feature(*args)`: the features appended in declaration order, nothing else changed. */
  function ProvideFeature(c: Factory, xs: seq<Value>): (r: Factory)
    requires c.ClassFactory?
    ensures r.ClassFactory? && r.key == c.key && r.cls == c.cls
    ensures |ProvidesFeatures(r)| == |ProvidesFeatures(c)| + |xs|
    ensures ProvidesFeatures(r)[..|ProvidesFeatures(c)|] == ProvidesFeatures(c)
    ensures ProvidesFeatures(r)[|ProvidesFeatures(c)|..] == xs
    ensures ConstructorDependencies(r) == ConstructorDependencies(c)
    ensures forall instance :: SetterDependencies(r, instance) == SetterDependencies(c, instance)
  {
    ClassFactory(c.key, c.cls, c.ctorDeps, c.setterDeps, c.features + xs)
  }

  /**
   * A DSL subclass sees every dependency its superclass declares, except a
   * name it redeclares, which takes the new descriptor; the superclass value
   * itself is unaffected.
   */
  lemma SubclassDependencies(key: Key, cls: Mod, parent: Factory, name: Value, args: seq<Value>, k: Value)
    requires NewFromArgs(args).Ok?
    ensures var child := ConstructorDependency(Inherit(key, cls, FactoryV(parent)), name, args);
      && child.Ok?
      && Get(ConstructorDependencies(child.value), name) == Some(NewFromArgs(args).value)
      && (k != name ==> Get(ConstructorDependencies(child.value), k) == Get(ConstructorDependencies(parent), k))
      && SetterDependencies(child.value, Nil) == SetterDependencies(parent, Nil)
      && ProvidesFeatures(child.value) == ProvidesFeatures(parent)
  {
  }

  /** Declaring the same dependency name twice keeps only the second declaration. */
  lemma RedeclarationReplaces(c: Factory, kind: Value, name: Value, a1: seq<Value>, a2: seq<Value>)
    requires c.ClassFactory?
    requires NewFromArgs(a1).Ok? && NewFromArgs(a2).Ok?
    ensures var once := AddDependency(c, kind, name, a1).value;
      var twice := AddDependency(once, kind, name, a2);
      && twice.Ok?
      && twice.value == AddDependency(c, kind, name, a2).value.(ctorDeps := twice.value.ctorDeps, setterDeps := twice.value.setterDeps)
      && (kind == Sym("setter") ==> Get(twice.value.setterDeps, name) == Some(NewFromArgs(a2).value))
      && (kind != Sym("setter") ==> Get(twice.value.ctorDeps, name) == Some(NewFromArgs(a2).value))
      && Keys(twice.value.ctorDeps) == Keys(once.ctorDeps) && Keys(twice.value.setterDeps) == Keys(once.setterDeps)
  {
  }
}
