/**
 * The data model: Ruby values as the container sees them, dependency
 * descriptors, and the factory variants. They form one recursive family
 * because a curried factory handle is itself a value, and values (fixed
 * arguments, wrapped instances, features) sit inside factories.
 */
module Values {
  import opened Base
  import opened OrderedMaps
  import opened Classes
  import opened Errors

  /** Identity of a factory object: supplied by the caller, or made by `Container#add`. */
  datatype Key = UserKey(n: nat) | AddedKey(n: nat)

  /** What an opaque constructor block does when called. */
  datatype BlockResult =
    | Allocates(cls: ClassId)      // returns a fresh instance of `cls` built from the arguments it got
    | Returns(v: Value)            // returns a value that already exists
    | Raises(err: ErrorClass)      // raises

  datatype Block = Block(id: nat, result: BlockResult)

  datatype Value =
    | Nil
    | Bool(b: bool)
    | Int(i: int)
    | Str(s: string)
    | Sym(s: string)
    | ModV(m: Mod)
    | Arr(elems: seq<Value>)
    | HashV(h: OMap<Value, Value>)
    | Obj(id: nat, cls: ClassId)                    // an object made outside the container
    | New(id: nat, cls: ClassId, args: seq<Value>)  // an object the container made, with its constructor's arguments
    | FactoryV(f: Factory)                          // an object implementing Wirer::Factory::Interface
    | Handle(f: Factory, deps: OMap<Value, Value>)  // Wirer::Factory::CurriedDependencies

  /** The required class of a descriptor: none, a module, or a name resolved on first use. */
  datatype ClassReq = NoClass | Required(m: Mod) | Pending(name: string)

  /**
   * Wirer::Dependency. `features` is whatever `:features` held (normally an
   * Array, or nil for no requirement); `handle` is the `:factory => true` flag.
   */
  datatype Dependency = Dependency(cls: ClassReq, features: Value, multiple: bool, optional: bool, handle: bool)

  /** Argument name to descriptor, in declaration order. */
  type DepTable = OMap<Value, Dependency>

  datatype Factory =
      /** An object extended with Factory::Interface and nothing else. */
    | Stub(key: Key)
      /** Factory::FromArgs. */
    | FromArgs(key: Key, cls: Mod, ctorDeps: DepTable, setterDeps: DepTable, features: seq<Value>,
               block: Option<Block>, initialArgs: Option<Value>)
      /** A class extended with Factory::ClassMixin (empty tables) or Factory::ClassDSL. */
    | ClassFactory(key: Key, cls: Mod, ctorDeps: DepTable, setterDeps: DepTable, features: seq<Value>)
      /** Factory::FromInstance. */
    | FromInstance(key: Key, instance: Value, features: seq<Value>)
      /** Factory::Wrapped; `staticSetterDeps` is set only when a setter dependency was refined. */
    | Wrapped(key: Key, inner: Factory, providedClass: ClassId, features: seq<Value>, ctorDeps: DepTable,
              staticSetterDeps: Option<DepTable>, initialArgs: Option<Value>, block: Option<Block>)

  /** A raised error as the construction engine propagates it. */
  datatype Failure =
    | Raised(cls: ErrorClass)
    | Cyclic(cycle: seq<Key>)                // CyclicDependencyError reporting the cycle of factories
    | ConstructionFailed(cause: Failure)     // DependencyConstructionError wrapping its cause
    | OutOfFuel                              // the model's recursion bound was reached

  /** The Ruby class of a failure; `None` for the model's own fuel exhaustion. */
  function FailureClass(e: Failure): Option<ErrorClass> {
    match e
    case Raised(c) => Some(c)
    case Cyclic(_) => Some(CyclicDependencyError)
    case ConstructionFailed(_) => Some(DependencyConstructionError)
    case OutOfFuel => None
  }

  /** Ruby truthiness: everything but `nil` and `false`. */
  predicate Truthy(v: Value) {
    v != Nil && v != Bool(false)
  }

  /** Ruby `a || b`. */
  function Or(a: Value, b: Value): (r: Value)
    ensures Truthy(a) ==> r == a
    ensures !Truthy(a) ==> r == b
  {
    if Truthy(a) then a else b
  }

  /**
   * `case v when Module`: a plain module or class, or a class that is itself a
   * factory through the class mixin.
   */
  function AsModule(v: Value): Option<Mod> {
    match v
    case ModV(m) => Some(m)
    case FactoryV(ClassFactory(_, m, _, _, _)) => Some(m)
    case _ => None
  }

  /** What a session did to the objects it built, in order. */
  datatype Effect =
    | Injected(target: Value, name: Value, value: Value)   // `target.name = value`
    | Notified(target: Value)                              // `target.post_initialize`

  /**
   * Everything about the running program the container consults but does not
   * own: the module hierarchy, the constants a class name can resolve to, the
   * classes whose instances define `post_initialize`, the attribute setters
   * each class defines, and the classes whose `new` raises (an `initialize`
   * that raises, or refuses the arguments it is given), with what it raises.
   */
  datatype World = World(h: Hierarchy, ns: map<string, Mod>, hooked: set<ClassId>, setters: set<(ClassId, Value)>,
                         failing: map<ClassId, ErrorClass>)

  /** `options[:name]` on an options hash. */
  function Opt(h: OMap<Value, Value>, name: string): Value {
    match Get(h, Sym(name))
    case Some(v) => v
    case None => Nil
  }

  /** Setting option `name` is what reading it back gives. */
  lemma OptPutSame(h: OMap<Value, Value>, name: string, v: Value)
    ensures Opt(Put(h, Sym(name), v), name) == v
  {
  }

  /** Setting another key leaves option `name` as it was. */
  lemma OptPut(h: OMap<Value, Value>, k: Value, v: Value, name: string)
    requires k != Sym(name)
    ensures Opt(Put(h, k, v), name) == Opt(h, name)
  {
  }

  /** An option whose key the hash does not hold reads as nil. */
  lemma OptAbsent(h: OMap<Value, Value>, name: string)
    requires Sym(name) !in Keys(h)
    ensures Opt(h, name) == Nil
  {
    GetSpec(h, Sym(name));
  }

  /** Option `name` read from the first entry holding it. */
  lemma OptFirst(h: OMap<Value, Value>, i: nat, name: string)
    requires i < |h.entries| && h.entries[i].0 == Sym(name)
    requires forall j :: 0 <= j < i ==> h.entries[j].0 != Sym(name)
    ensures Opt(h, name) == h.entries[i].1
  {
    GetFirst(h, i, Sym(name));
  }

  /** Option `name` when no entry holds it. */
  lemma OptNone(h: OMap<Value, Value>, name: string)
    requires forall j :: 0 <= j < |h.entries| ==> h.entries[j].0 != Sym(name)
    ensures Opt(h, name) == Nil
  {
    GetNone(h, Sym(name));
  }

  /** Ruby `v.class`. */
  function ClassOf(v: Value): ClassId {
    match v
    case Nil => "NilClass"
    case Bool(b) => if b then "TrueClass" else "FalseClass"
    case Int(_) => "Integer"
    case Str(_) => StringId
    case Sym(_) => "Symbol"
    case ModV(m) => if m.isClass then "Class" else "Module"
    case Arr(_) => "Array"
    case HashV(_) => HashId
    case Obj(_, c) => c
    case New(_, c, _) => c
    case FactoryV(f) => FactoryObjectClass(f)
    case Handle(_, _) => "Wirer::Factory::CurriedDependencies"
  }

  /** The Ruby class of a factory object (a ClassDSL factory is itself a Class). */
  function FactoryObjectClass(f: Factory): ClassId {
    match f
    case Stub(_) => ObjectId
    case FromArgs(_, _, _, _, _, _, _) => "Wirer::Factory::FromArgs"
    case ClassFactory(_, _, _, _, _) => "Class"
    case FromInstance(_, _, _) => "Wirer::Factory::FromInstance"
    case Wrapped(_, _, _, _, _, _, _, _) => "Wirer::Factory::Wrapped"
  }

  /** The elements `Array#all?`/`each` would visit; `None` when the value is not enumerable. */
  function Elements(v: Value): Option<seq<Value>> {
    match v
    case Arr(xs) => Some(xs)
    case HashV(h) => Some(seq(|h.entries|, i requires 0 <= i < |h.entries| => Arr([h.entries[i].0, h.entries[i].1])))
    case _ => None
  }

  /** The two block parameters `|a, b|` bound to one yielded element: an Array is spread, anything else fills `a`. */
  function Destructure(x: Value): (Value, Value) {
    match x
    case Arr(xs) => (if |xs| > 0 then xs[0] else Nil, if |xs| > 1 then xs[1] else Nil)
    case _ => (x, Nil)
  }

  /**
   * What `v.each do |a, b|` binds, step by step: a Hash's entries in order, an
   * Array's elements spread over two parameters; `None` when `v` has no `each`.
   */
  function EachPair(v: Value): (r: Option<seq<(Value, Value)>>)
    ensures r.Some? <==> Elements(v).Some?
    ensures v.HashV? ==> r == Some(v.h.entries)
    ensures r.Some? ==> |r.value| == |Elements(v).value|
  {
    match Elements(v)
    case None => None
    case Some(xs) =>
      var r := seq(|xs|, i requires 0 <= i < |xs| => Destructure(xs[i]));
      assert v.HashV? ==> forall i :: 0 <= i < |xs| ==> xs[i] == Arr([v.h.entries[i].0, v.h.entries[i].1]);
      assert v.HashV? ==> r == v.h.entries;
      Some(r)
  }
}
