/**
 * Wirer::Container as a registry: the factories in the order they were added,
 * a singleton slot per singleton factory, and the factories registered under a
 * method name. `add` turns its many argument styles into one of three kinds of
 * factory; constructing by name or by dependency runs one construction session
 * against the registry (the Legacy engine, which is the container's own).
 */
module Registry {
  import opened Base
  import opened OrderedMaps
  import opened Classes
  import opened Errors
  import opened Values
  import opened FactoryInterface
  import opened Dependencies
  import opened Sessions
  import Wrapping
  import FromArgsFactory

  /**
   * The container's state. `nextKey` names the next factory object the
   * container itself makes; `nextId` the next object a session builds.
   */
  datatype Container = Container(factories: seq<Factory>, slots: map<Key, Value>, names: OMap<Value, Factory>,
                                 nextKey: nat, nextId: nat)

  /** The identities of the registered factories. */
  function KeysOf(fs: seq<Factory>): set<Key> {
    set i | 0 <= i < |fs| :: fs[i].key
  }

  /** Registering one more factory adds exactly its identity. */
  lemma KeysOfAppend(fs: seq<Factory>, f: Factory)
    ensures KeysOf(fs + [f]) == KeysOf(fs) + {f.key}
  {
    var gs := fs + [f];
    assert gs[|fs|] == f;
    forall k | k in KeysOf(fs)
      ensures k in KeysOf(gs)
    {
      var i :| 0 <= i < |fs| && fs[i].key == k;
      assert gs[i] == fs[i];
    }
  }

  /**
   * What the container keeps true: the name table is a proper Hash, every
   * singleton slot belongs to a registered factory, and every name refers to a
   * registered factory.
   */
  ghost predicate Inv(c: Container) {
    && Valid(c.names)
    && c.slots.Keys <= KeysOf(c.factories)
    && (forall i :: 0 <= i < |c.names.entries| ==> c.names.entries[i].1 in c.factories)
  }

  /** `Container.new`: nothing registered yet. */
  function NewContainer(): (c: Container)
    ensures Inv(c) && FactoriesOf(c) == []
    ensures forall name :: FactoryByName(c, name).None?
  {
    Container([], map[], Empty(), 0, 0)
  }

  /** `container.factories`. */
  function FactoriesOf(c: Container): seq<Factory> {
    c.factories
  }

  /** `container.factory(name)`: the factory last registered under the name, nil when none. */
  function FactoryByName(c: Container, name: Value): Option<Factory> {
    Get(c.names, name)
  }

  // ---------------------------------------------------------------------------
  // Registering a factory

  /**
   * `add_factory_instance(factory, options)`: anything that is not a factory is
   * a TypeError; otherwise the factory goes last, gets an empty singleton slot
   * unless `:singleton` is exactly `false` (emptying any slot it already had),
   * and a truthy `:method_name` is bound to it, replacing an earlier binding.
   */
  function AddFactoryInstance(c: Container, v: Value, options: Options): Result<Container, ErrorClass> {
    if !v.FactoryV? then Err(TypeError)
    else
      var name := Opt(options, "method_name");
      var slots := if Opt(options, "singleton") != Bool(false) then c.slots[v.f.key := Nil] else c.slots;
      var names := if Truthy(name) then Put(c.names, name, v.f) else c.names;
      Ok(Container(c.factories + [v.f], slots, names, c.nextKey, c.nextId))
  }

  /**
   * What `add_factory_instance` does to the registry: the factory is appended,
   * its slot is emptied unless `:singleton` is `false`, other slots keep their
   * contents, the method name (when truthy) now finds it and every other name
   * finds what it found before, and the invariant is kept.
   */
  lemma AddFactoryInstanceSpec(c: Container, v: Value, options: Options)
    ensures var r := AddFactoryInstance(c, v, options);
      && (r.Err? <==> !v.FactoryV?)
      && (r.Err? ==> r.error == TypeError)
    ensures var r := AddFactoryInstance(c, v, options);
      r.Ok? ==> r.value.factories == c.factories + [v.f] && r.value.nextKey == c.nextKey && r.value.nextId == c.nextId
    ensures var r := AddFactoryInstance(c, v, options);
      r.Ok? && Opt(options, "singleton") != Bool(false) ==>
        r.value.slots.Keys == c.slots.Keys + {v.f.key} && r.value.slots[v.f.key] == Nil
    ensures var r := AddFactoryInstance(c, v, options);
      r.Ok? ==> forall k :: k in c.slots && k != v.f.key ==> k in r.value.slots && r.value.slots[k] == c.slots[k]
    ensures var r := AddFactoryInstance(c, v, options);
      r.Ok? && Opt(options, "singleton") == Bool(false) ==> r.value.slots == c.slots
    ensures var r := AddFactoryInstance(c, v, options);
      r.Ok? && Truthy(Opt(options, "method_name")) ==> FactoryByName(r.value, Opt(options, "method_name")) == Some(v.f)
    ensures var r := AddFactoryInstance(c, v, options);
      r.Ok? ==> forall name {:trigger FactoryByName(r.value, name)} ::
        name != Opt(options, "method_name") ==> FactoryByName(r.value, name) == FactoryByName(c, name)
    ensures var r := AddFactoryInstance(c, v, options);
      r.Ok? && !Truthy(Opt(options, "method_name")) ==> r.value.names == c.names
    ensures var r := AddFactoryInstance(c, v, options);
      r.Ok? && Inv(c) ==> Inv(r.value)
  {
    if v.FactoryV? {
      var r := AddFactoryInstance(c, v, options).value;
      BindName(c.names, Opt(options, "method_name"), v.f, r.names);
      RegisteredInv(c, v.f, r);
    }
  }

  /** Binding a truthy name to `f`, and leaving the table alone otherwise. */
  lemma BindName(names: OMap<Value, Factory>, name: Value, f: Factory, names': OMap<Value, Factory>)
    requires names' == if Truthy(name) then Put(names, name, f) else names
    ensures Truthy(name) ==> Get(names', name) == Some(f)
    ensures forall n {:trigger Get(names', n)} :: n != name ==> Get(names', n) == Get(names, n)
    ensures Valid(names) ==> Valid(names')
    ensures forall i :: 0 <= i < |names'.entries| ==> names'.entries[i].1 == f || names'.entries[i].1 in OrderedMaps.Values(names)
  {
    if Truthy(name) {
      if Valid(names) {
        PutValid(names, name, f);
      }
      forall i | 0 <= i < |names'.entries|
        ensures names'.entries[i].1 == f || names'.entries[i].1 in OrderedMaps.Values(names)
      {
        PutEntries(names, name, f, i);
      }
    } else {
      forall i | 0 <= i < |names'.entries|
        ensures names'.entries[i].1 in OrderedMaps.Values(names)
      {
        assert OrderedMaps.Values(names)[i] == names.entries[i].1;
      }
    }
  }

  /** Registering one more factory, with at most its own slot and name added, keeps the invariant. */
  lemma RegisteredInv(c: Container, f: Factory, r: Container)
    requires r.factories == c.factories + [f]
    requires r.slots.Keys <= c.slots.Keys + {f.key}
    requires Valid(c.names) ==> Valid(r.names)
    requires forall i :: 0 <= i < |r.names.entries| ==> r.names.entries[i].1 == f || r.names.entries[i].1 in OrderedMaps.Values(c.names)
    ensures Inv(c) ==> Inv(r)
  {
    KeysOfAppend(c.factories, f);
    if Inv(c) {
      forall i | 0 <= i < |r.names.entries|
        ensures r.names.entries[i].1 in r.factories
      {
        if r.names.entries[i].1 != f {
          var j :| 0 <= j < |c.names.entries| && OrderedMaps.Values(c.names)[j] == r.names.entries[i].1;
          assert c.names.entries[j].1 in c.factories;
        }
      }
    }
  }

  /** The options `add_factory` hands on to `add_factory_instance`. */
  function RegistrationOptions(options: Options): (r: Options)
    ensures Opt(r, "method_name") == Opt(options, "method_name") && Opt(r, "singleton") == Opt(options, "singleton")
  {
    Put(Put(Empty(), Sym("method_name"), Opt(options, "method_name")), Sym("singleton"), Opt(options, "singleton"))
  }

  /** What `add_factory` registers: the factory itself when nothing is left to wrap it with, else the wrapper. */
  function FactoryToAdd(key: Key, w: World, f: Factory, rest: Options, block: Option<Block>): Result<Factory, ErrorClass> {
    if rest.entries == [] && block.None? then Ok(f) else Wrapping.NewWrapped(key, f, rest, block, w)
  }

  /**
   * `add_factory(factory, options, &block)`: `:method_name` and `:singleton`
   * are taken out; if any other option or a block remains, what is registered
   * is the factory wrapped with them, otherwise the factory itself.
   */
  function AddFactory(c: Container, w: World, f: Factory, options: Options, block: Option<Block>): Result<Container, ErrorClass> {
    var rest := WrapOptions(options);
    var nextKey := if rest.entries == [] && block.None? then c.nextKey else c.nextKey + 1;
    Register(c, FactoryToAdd(AddedKey(c.nextKey), w, f, rest, block), nextKey, options)
  }

  /** The options `add_factory` leaves for a wrapper: all but `:method_name` and `:singleton`. */
  function WrapOptions(options: Options): Options {
    Delete(Delete(options, Sym("method_name")), Sym("singleton"))
  }

  /** The last step of `add_factory`: what was made is registered (a wrapper having taken a fresh key), or its error passed on. */
  function Register(c: Container, made: Result<Factory, ErrorClass>, nextKey: nat, options: Options): Result<Container, ErrorClass> {
    match made
    case Err(e) => Err(e)
    case Ok(g) => AddFactoryInstance(Container(c.factories, c.slots, c.names, nextKey, c.nextId), FactoryV(g), RegistrationOptions(options))
  }

  /** Registering what was made: it goes last, the method name finds it, and the invariant is kept. */
  lemma RegisterSpec(c: Container, made: Result<Factory, ErrorClass>, nextKey: nat, options: Options)
    ensures var r := Register(c, made, nextKey, options);
      && (r.Ok? <==> made.Ok?)
      && (r.Ok? ==> r.value.factories == c.factories + [made.value])
    ensures var r := Register(c, made, nextKey, options);
      r.Ok? ==> FactoryByName(r.value, Opt(options, "method_name")) == if Truthy(Opt(options, "method_name"))
        then Some(made.value) else FactoryByName(c, Opt(options, "method_name"))
    ensures var r := Register(c, made, nextKey, options);
      r.Ok? && Inv(c) ==> Inv(r.value)
  {
    if made.Ok? {
      AddFactoryInstanceSpec(Container(c.factories, c.slots, c.names, nextKey, c.nextId), FactoryV(made.value), RegistrationOptions(options));
    }
  }

  /**
   * What `add_factory` registers: the factory itself when no option but the
   * method name and `:singleton` and no block is given, else its wrapper,
   * failing as the wrapper does.
   */
  lemma AddFactorySpec(c: Container, w: World, f: Factory, options: Options, block: Option<Block>)
    ensures var r := AddFactory(c, w, f, options, block);
      var rest := WrapOptions(options);
      && (rest.entries == [] && block.None? ==> r.Ok? && r.value.factories == c.factories + [f])
      && (!(rest.entries == [] && block.None?) ==>
            && (r.Ok? <==> Wrapping.NewWrapped(AddedKey(c.nextKey), f, rest, block, w).Ok?)
            && (r.Ok? ==> r.value.factories == c.factories + [Wrapping.NewWrapped(AddedKey(c.nextKey), f, rest, block, w).value]))
  {
    var rest := WrapOptions(options);
    var nextKey := if rest.entries == [] && block.None? then c.nextKey else c.nextKey + 1;
    RegisterSpec(c, FactoryToAdd(AddedKey(c.nextKey), w, f, rest, block), nextKey, options);
  }

  /** After `add_factory`, a truthy method name finds what was registered and any other name finds what it found before. */
  lemma AddFactoryName(c: Container, w: World, f: Factory, options: Options, block: Option<Block>)
    ensures var r := AddFactory(c, w, f, options, block);
      r.Ok? ==> FactoryByName(r.value, Opt(options, "method_name")) == if Truthy(Opt(options, "method_name"))
        then Some(r.value.factories[|c.factories|]) else FactoryByName(c, Opt(options, "method_name"))
  {
    var rest := WrapOptions(options);
    var nextKey := if rest.entries == [] && block.None? then c.nextKey else c.nextKey + 1;
    RegisterSpec(c, FactoryToAdd(AddedKey(c.nextKey), w, f, rest, block), nextKey, options);
  }

  /** `add_new_factory` appends exactly one factory and keeps the invariant. */
  lemma AddNewFactoryKeeps(c: Container, options: Options, block: Option<Block>)
    ensures var r := AddNewFactory(c, options, block);
      r.Ok? ==> |r.value.factories| == |c.factories| + 1 && r.value.factories[..|c.factories|] == c.factories
    ensures var r := AddNewFactory(c, options, block);
      r.Ok? && Inv(c) ==> Inv(r.value)
  {
    AddNewFactorySpec(c, options, block);
  }

  /** `add_factory` appends exactly one factory and keeps the invariant. */
  lemma AddFactoryKeeps(c: Container, w: World, f: Factory, options: Options, block: Option<Block>)
    ensures var r := AddFactory(c, w, f, options, block);
      r.Ok? ==> |r.value.factories| == |c.factories| + 1 && r.value.factories[..|c.factories|] == c.factories
    ensures var r := AddFactory(c, w, f, options, block);
      r.Ok? && Inv(c) ==> Inv(r.value)
  {
    var rest := WrapOptions(options);
    var nextKey := if rest.entries == [] && block.None? then c.nextKey else c.nextKey + 1;
    RegisterSpec(c, FactoryToAdd(AddedKey(c.nextKey), w, f, rest, block), nextKey, options);
  }

  /**
   * `add_new_factory(options, &block)`: a Factory::FromArgs made from the
   * options, registered with the same options.
   */
  function AddNewFactory(c: Container, options: Options, block: Option<Block>): Result<Container, ErrorClass> {
    RegisterNew(c, FromArgsFactory.NewFactory(AddedKey(c.nextKey), options, block), options)
  }

  /** The last step of `add_new_factory`: the factory made takes the next key and is registered with all the options, or its error is passed on. */
  function RegisterNew(c: Container, made: Result<Factory, ErrorClass>, options: Options): Result<Container, ErrorClass> {
    match made
    case Err(e) => Err(e)
    case Ok(f) => AddFactoryInstance(Container(c.factories, c.slots, c.names, c.nextKey + 1, c.nextId), FactoryV(f), options)
  }

  /**
   * What `add_new_factory` registers: the FromArgs factory the options
   * describe, last, failing exactly when that factory cannot be made; it gets
   * an empty slot unless `:singleton` is `false`, and the invariant is kept.
   */
  lemma AddNewFactorySpec(c: Container, options: Options, block: Option<Block>)
    ensures var r := AddNewFactory(c, options, block);
      var f := FromArgsFactory.NewFactory(AddedKey(c.nextKey), options, block);
      && (r.Ok? <==> f.Ok?)
      && (r.Ok? ==> r.value.factories == c.factories + [f.value] && r.value.nextKey == c.nextKey + 1)
      && (r.Err? ==> r.error == f.error)
    ensures var r := AddNewFactory(c, options, block);
      r.Ok? && Opt(options, "singleton") != Bool(false) ==>
        var f := r.value.factories[|c.factories|]; f.key in r.value.slots && r.value.slots[f.key] == Nil
    ensures var r := AddNewFactory(c, options, block);
      r.Ok? && Inv(c) ==> Inv(r.value)
  {
    var f := FromArgsFactory.NewFactory(AddedKey(c.nextKey), options, block);
    if f.Ok? {
      AddFactoryInstanceSpec(Container(c.factories, c.slots, c.names, c.nextKey + 1, c.nextId), FactoryV(f.value), options);
    }
  }

  /** The features `add_instance` gives the instance: none for nil, an Array's elements, any other value alone. */
  function InstanceFeatures(features: Value): seq<Value> {
    match features
    case Nil => []
    case Arr(xs) => xs
    case _ => [features]
  }

  /**
   * `add_instance(instance, options)`: a Factory::FromInstance for the
   * instance with the `:features` option's features, registered with the
   * options.
   */
  function AddInstance(c: Container, instance: Value, options: Options): Container {
    var f := FromInstance(AddedKey(c.nextKey), instance, InstanceFeatures(Opt(options, "features")));
    AddFactoryInstance(Container(c.factories, c.slots, c.names, c.nextKey + 1, c.nextId), FactoryV(f), options).value
  }

  /**
   * What `add_instance` registers: one more factory, last, holding the
   * instance, providing the `:features` option's features and the instance's
   * class; the invariant is kept.
   */
  lemma AddInstanceSpec(c: Container, instance: Value, options: Options)
    ensures var r := AddInstance(c, instance, options);
      |r.factories| == |c.factories| + 1 && r.factories[..|c.factories|] == c.factories
    ensures var r := AddInstance(c, instance, options);
      var f := r.factories[|c.factories|];
      && f.FromInstance? && f.instance == instance
      && ProvidesFeatures(f) == InstanceFeatures(Opt(options, "features"))
      && ProvidesClass(f) == ClassOf(instance)
    ensures Inv(c) ==> Inv(AddInstance(c, instance, options))
  {
    var f := FromInstance(AddedKey(c.nextKey), instance, InstanceFeatures(Opt(options, "features")));
    var c' := Container(c.factories, c.slots, c.names, c.nextKey + 1, c.nextId);
    AddFactoryInstanceSpec(c', FactoryV(f), options);
    var r := AddInstance(c, instance, options);
    assert r.factories == c.factories + [f];
    assert r.factories[..|c.factories|] == c.factories;
  }

  /** `add_instance` appends exactly one factory and keeps the invariant. */
  lemma AddInstanceKeeps(c: Container, instance: Value, options: Options)
    ensures var r := AddInstance(c, instance, options);
      |r.factories| == |c.factories| + 1 && r.factories[..|c.factories|] == c.factories
    ensures Inv(c) ==> Inv(AddInstance(c, instance, options))
  {
    AddInstanceSpec(c, instance, options);
  }

  // ---------------------------------------------------------------------------
  // `add`: argument normalisation and dispatch

  /** Every option name `add` recognises: Wrapped's, then FromArgs', then its own. */
  const AddOptionNames: seq<Value> :=
    Union(Union(Wrapping.OptionNames, FromArgsFactory.OptionNames), [Sym("method_name"), Sym("singleton")])

  /** A trailing Hash is the options; everything before it is positional. */
  function SplitOptions(args: seq<Value>): (r: (seq<Value>, Options))
    ensures |args| > 0 && args[|args| - 1].HashV? ==> r.0 + [HashV(r.1)] == args
    ensures !(|args| > 0 && args[|args| - 1].HashV?) ==> r.0 == args && r.1.entries == []
  {
    if |args| > 0 && args[|args| - 1].HashV? then (args[..|args| - 1], args[|args| - 1].h)
    else (args, Empty())
  }

  /**
   * `(opts[:features] ||= []) << :default if opts.delete(:default)`: the
   * `:default` option is always removed, and when it was truthy `:default`
   * becomes the last feature.
   */
  function DefaultOption(opts: Options): Result<Options, ErrorClass> {
    var rest := Delete(opts, Sym("default"));
    if Truthy(Opt(opts, "default")) then AppendFeature(rest, Sym("default")) else Ok(rest)
  }

  /**
   * What `:default` does: it is gone afterwards; when it was truthy the
   * features gain `:default` last (a NoMethodError when they are set but not
   * an Array); the features are untouched otherwise.
   */
  lemma DefaultOptionSpec(opts: Options)
    ensures var r := DefaultOption(opts);
      r.Ok? ==> !HasKey(r.value, Sym("default"))
    ensures var r := DefaultOption(opts);
      Truthy(Opt(opts, "default")) ==>
        (r.Ok? <==> !(Truthy(Opt(opts, "features")) && !Opt(opts, "features").Arr?))
    ensures var r := DefaultOption(opts);
      Truthy(Opt(opts, "default")) && r.Ok? ==>
        Opt(r.value, "features") == Arr(FeatureList(Opt(opts, "features")) + [Sym("default")])
    ensures var r := DefaultOption(opts);
      !Truthy(Opt(opts, "default")) ==> r.Ok? && Opt(r.value, "features") == Opt(opts, "features")
  {
    var rest := Delete(opts, Sym("default"));
    DeleteGet(opts, Sym("default"), Sym("default"));
    DeleteGet(opts, Sym("default"), Sym("features"));
    assert Opt(rest, "features") == Opt(opts, "features");
    if Truthy(Opt(opts, "default")) {
      var r := AppendFeature(rest, Sym("default"));
      AppendFeatureSpec(rest, Sym("default"));
      AppendFeatureOther(rest, Sym("default"), "default");
      if r.Ok? {
        GetSpec(r.value, Sym("default"));
      }
    } else {
      GetSpec(rest, Sym("default"));
    }
  }

  /** `:default` leaves every option other than `:default` and `:features` as it was. */
  lemma DefaultOptionOther(opts: Options, k: Value)
    requires k != Sym("features") && k != Sym("default")
    ensures var r := DefaultOption(opts);
      r.Ok? ==> Get(r.value, k) == Get(opts, k)
  {
    var rest := Delete(opts, Sym("default"));
    DeleteGet(opts, Sym("default"), k);
    if Truthy(Opt(opts, "default")) {
      AppendFeatureSpec(rest, Sym("default"));
    }
  }

  /** Some option `add` recognises is present. */
  predicate MentionsOption(opts: Options) {
    exists i :: 0 <= i < |AddOptionNames| && HasKey(opts, AddOptionNames[i])
  }

  /**
   * A non-empty options hash that mentions none of the recognised names is
   * the dependencies: `{:dependencies => opts}`.
   */
  function WrapDependencies(opts: Options): (r: Options)
    ensures opts.entries != [] && !MentionsOption(opts) ==> Opt(r, "dependencies") == HashV(opts) && Keys(r) == [Sym("dependencies")]
    ensures opts.entries == [] || MentionsOption(opts) ==> r == opts
  {
    if opts.entries == [] || MentionsOption(opts) then opts
    else Put(Empty(), Sym("dependencies"), HashV(opts))
  }

  /**
   * A leading Symbol names the factory: it becomes `:method_name` unless one
   * is given (truthy), and is always appended to the features.
   */
  function NamedFeature(positional: seq<Value>, opts: Options): Result<(seq<Value>, Options), ErrorClass> {
    if |positional| > 0 && positional[0].Sym? then
      var name := positional[0];
      match AppendFeature(NameOptions(opts, name), name)
      case Err(e) => Err(e)
      case Ok(o) => Ok((positional[1..], o))
    else Ok((positional, opts))
  }

  /** The options before the name is appended to the features: the name is the method name unless a truthy one is given. */
  function NameOptions(opts: Options, name: Value): Options {
    if Truthy(Opt(opts, "method_name")) then opts else Put(opts, Sym("method_name"), name)
  }

  /** Setting the method name leaves `:features` alone and makes the method name truthy-or-given. */
  lemma NameOptionsSpec(opts: Options, name: Value)
    ensures Opt(NameOptions(opts, name), "features") == Opt(opts, "features")
    ensures Opt(NameOptions(opts, name), "method_name") == if Truthy(Opt(opts, "method_name")) then Opt(opts, "method_name") else name
  {
    if !Truthy(Opt(opts, "method_name")) {
      OptPut(opts, Sym("method_name"), name, "features");
      OptPutSame(opts, "method_name", name);
    }
  }

  /**
   * What a leading Symbol does: without one nothing changes; with one it is
   * consumed and appended to the features, which fails exactly when they are
   * set but not an Array.
   */
  lemma NamedFeatureSpec(positional: seq<Value>, opts: Options)
    ensures !(|positional| > 0 && positional[0].Sym?) ==> NamedFeature(positional, opts) == Ok((positional, opts))
    ensures var r := NamedFeature(positional, opts);
      |positional| > 0 && positional[0].Sym? ==> (r.Err? <==> Truthy(Opt(opts, "features")) && !Opt(opts, "features").Arr?)
    ensures var r := NamedFeature(positional, opts);
      |positional| > 0 && positional[0].Sym? && r.Ok? ==> r.value.0 == positional[1..]
  {
    if |positional| > 0 && positional[0].Sym? {
      NameOptionsSpec(opts, positional[0]);
      AppendFeatureSpec(NameOptions(opts, positional[0]), positional[0]);
    }
  }

  /**
   * With a leading Symbol, the options `add` goes on with: the method name is
   * the one given when truthy, else the Symbol, and the Symbol is appended to
   * the features.
   */
  lemma NamedFeatureOptions(positional: seq<Value>, opts: Options)
    requires |positional| > 0 && positional[0].Sym?
    ensures var r := NamedFeature(positional, opts);
      r.Ok? ==>
        && Opt(r.value.1, "method_name") == (if Truthy(Opt(opts, "method_name")) then Opt(opts, "method_name") else positional[0])
        && Opt(r.value.1, "features") == Arr(FeatureList(Opt(opts, "features")) + [positional[0]])
  {
    var a := AppendFeature(NameOptions(opts, positional[0]), positional[0]);
    NameThenAppend(opts, positional[0]);
    assert NamedFeature(positional, opts) == if a.Err? then Err(a.error) else Ok((positional[1..], a.value));
  }

  /** Naming, then appending the name to the features, as one step on the options. */
  lemma NameThenAppend(opts: Options, name: Value)
    ensures var a := AppendFeature(NameOptions(opts, name), name);
      a.Ok? ==>
        && Opt(a.value, "method_name") == (if Truthy(Opt(opts, "method_name")) then Opt(opts, "method_name") else name)
        && Opt(a.value, "features") == Arr(FeatureList(Opt(opts, "features")) + [name])
  {
    var named := NameOptions(opts, name);
    NameOptionsSpec(opts, name);
    AppendFeatureSpec(named, name);
    AppendFeatureOther(named, name, "method_name");
  }

  /** `add` once its options are normalised: the main argument, the remaining positionals, and the options. */
  datatype AddCall = AddCall(main: Value, rest: seq<Value>, opts: Options)

  /** Everything `add` does before looking at its main argument. */
  function NormaliseAdd(args: seq<Value>): Result<AddCall, ErrorClass> {
    var (positional, given) := SplitOptions(args);
    match DefaultOption(given)
    case Err(e) => Err(e)
    case Ok(o) =>
      match NamedFeature(positional, WrapDependencies(o))
      case Err(e) => Err(e)
      case Ok((ps, opts)) =>
        if |ps| == 0 then Ok(AddCall(Nil, [], opts)) else Ok(AddCall(ps[0], ps[1..], opts))
  }

  /** `add_options[:args] = rest unless rest.empty?`. */
  function WithRest(opts: Options, rest: seq<Value>): (r: Options)
    ensures rest == [] ==> r == opts
    ensures rest != [] ==> Opt(r, "args") == Arr(rest)
  {
    if rest == [] then opts else Put(opts, Sym("args"), Arr(rest))
  }

  /** Leftover positionals touch no option but `:args`. */
  lemma WithRestOther(opts: Options, rest: seq<Value>, k: Value)
    requires k != Sym("args")
    ensures Get(WithRest(opts, rest), k) == Get(opts, k)
  {
  }

  /**
   * `add(*args, &block)`: a factory is added as it is (or wrapped), a Module
   * becomes a FromArgs factory for that class, nil a block-built FromArgs
   * factory, and anything else a constant instance. Leftover positionals are
   * the `:args` of a factory or a Module and are dropped otherwise.
   */
  function Add(c: Container, w: World, args: seq<Value>, block: Option<Block>): Result<Container, ErrorClass> {
    match NormaliseAdd(args)
    case Err(e) => Err(e)
    case Ok(call) => Dispatch(c, w, call, block)
  }

  /** The second half of `add`: what the main argument says to register. */
  function Dispatch(c: Container, w: World, call: AddCall, block: Option<Block>): Result<Container, ErrorClass> {
    var AddCall(main, rest, opts) := call;
    match main
    case FactoryV(f) => AddFactory(c, w, f, WithRest(opts, rest), block)
    case ModV(_) => AddNewFactory(c, WithRest(Put(opts, Sym("class"), main), rest), block)
    case Nil => AddNewFactory(c, opts, block)
    case _ => Ok(AddInstance(c, main, opts))
  }

  /**
   * Whatever `add` is given, when it succeeds exactly one factory has been
   * appended, the earlier ones are untouched, and the invariant is kept.
   */
  lemma AddSpec(c: Container, w: World, args: seq<Value>, block: Option<Block>)
    ensures var r := Add(c, w, args, block);
      r.Ok? ==> |r.value.factories| == |c.factories| + 1 && r.value.factories[..|c.factories|] == c.factories
    ensures var r := Add(c, w, args, block);
      r.Ok? && Inv(c) ==> Inv(r.value)
  {
    if NormaliseAdd(args).Ok? {
      DispatchSpec(c, w, NormaliseAdd(args).value, block);
    }
  }

  /** A factory as main argument goes to `add_factory`, with leftover positionals as `:args`. */
  lemma DispatchFactory(c: Container, w: World, f: Factory, rest: seq<Value>, opts: Options, block: Option<Block>)
    ensures Dispatch(c, w, AddCall(FactoryV(f), rest, opts), block) == AddFactory(c, w, f, WithRest(opts, rest), block)
  {
    var call := AddCall(FactoryV(f), rest, opts);
    assert call.main.FactoryV? && call.main.f == f;
  }

  /** A Module as main argument goes to `add_new_factory` as `:class`, with leftover positionals as `:args`. */
  lemma DispatchModule(c: Container, w: World, m: Mod, rest: seq<Value>, opts: Options, block: Option<Block>)
    ensures Dispatch(c, w, AddCall(ModV(m), rest, opts), block) == AddNewFactory(c, WithRest(Put(opts, Sym("class"), ModV(m)), rest), block)
  {
  }

  /** No main argument goes to `add_new_factory` with the options as they are. */
  lemma DispatchNil(c: Container, w: World, rest: seq<Value>, opts: Options, block: Option<Block>)
    ensures Dispatch(c, w, AddCall(Nil, rest, opts), block) == AddNewFactory(c, opts, block)
  {
  }

  /** Any other main argument goes to `add_instance`; leftover positionals are dropped. */
  lemma DispatchInstance(c: Container, w: World, instance: Value, rest: seq<Value>, opts: Options, block: Option<Block>)
    requires !instance.FactoryV? && !instance.ModV? && instance != Nil
    ensures Dispatch(c, w, AddCall(instance, rest, opts), block) == Ok(AddInstance(c, instance, opts))
  {
  }

  /** Whatever the main argument, a successful dispatch appends exactly one factory and keeps the invariant. */
  lemma DispatchSpec(c: Container, w: World, call: AddCall, block: Option<Block>)
    ensures var r := Dispatch(c, w, call, block);
      r.Ok? ==> |r.value.factories| == |c.factories| + 1 && r.value.factories[..|c.factories|] == c.factories
    ensures var r := Dispatch(c, w, call, block);
      r.Ok? && Inv(c) ==> Inv(r.value)
  {
    var AddCall(main, rest, opts) := call;
    assert call == AddCall(main, rest, opts);
    if main.FactoryV? {
      DispatchFactory(c, w, main.f, rest, opts, block);
      AddFactoryKeeps(c, w, main.f, WithRest(opts, rest), block);
    } else if main.ModV? {
      DispatchModule(c, w, main.m, rest, opts, block);
      AddNewFactoryKeeps(c, WithRest(Put(opts, Sym("class"), main), rest), block);
    } else if main == Nil {
      DispatchNil(c, w, rest, opts, block);
      AddNewFactoryKeeps(c, opts, block);
    } else {
      DispatchInstance(c, w, main, rest, opts, block);
      AddInstanceKeeps(c, main, opts);
    }
  }

  // ---------------------------------------------------------------------------
  // Constructing through the container

  /** What a top-level request returns: the result, the container afterwards, and what was done to the objects. */
  datatype Reply = Reply(result: Result<Value, Failure>, c: Container, effects: seq<Effect>)

  /** The container's view of a finished session: only the slots and the identity counter change. */
  function AfterSession(c: Container, r: SessionResult): Reply {
    Reply(r.result, Container(c.factories, r.slots, c.names, c.nextKey, r.next), r.effects)
  }

  /** The engine environment for a container's sessions. */
  function EnvOf(c: Container, w: World): Env {
    Env(w, c.factories, Legacy)
  }

  /**
   * `construct_factory_by_method_name(name, *args, &block)`: one session
   * constructing the factory registered under the name. Registration is
   * untouched, filled slots stay filled, and an unregistered name fails as
   * nil does, with nothing built.
   */
  function ConstructByName(c: Container, w: World, name: Value, args: seq<Value>, hasBlock: bool, fuel: nat): (r: Reply)
    ensures r.c.factories == c.factories && r.c.names == c.names && r.c.nextKey == c.nextKey
    ensures r.c.slots.Keys == c.slots.Keys && c.nextId <= r.c.nextId
    ensures forall k {:trigger r.c.slots[k]} :: k in c.slots && Truthy(c.slots[k]) ==> r.c.slots[k] == c.slots[k]
    ensures Inv(c) ==> Inv(r.c)
    ensures FactoryByName(c, name).None? ==> r == Reply(Err(Raised(NoMethodError)), c, [])
  {
    AfterSession(c, RunSession(EnvOf(c, w), ByFactory(FactoryByName(c, name), args, hasBlock), c.slots, c.nextId, fuel))
  }

  /**
   * `container[*dep_args]`: one session constructing whatever the dependency
   * the arguments describe resolves to; malformed arguments fail before
   * anything is built.
   */
  function Lookup(c: Container, w: World, depArgs: seq<Value>, fuel: nat): (r: Reply)
    ensures r.c.factories == c.factories && r.c.names == c.names && r.c.nextKey == c.nextKey
    ensures r.c.slots.Keys == c.slots.Keys && c.nextId <= r.c.nextId
    ensures forall k {:trigger r.c.slots[k]} :: k in c.slots && Truthy(c.slots[k]) ==> r.c.slots[k] == c.slots[k]
    ensures Inv(c) ==> Inv(r.c)
    ensures NewFromArgs(depArgs).Err? ==> r == Reply(Err(Raised(NewFromArgs(depArgs).error)), c, [])
  {
    AfterSession(c, RunSession(EnvOf(c, w), ByDependency(depArgs), c.slots, c.nextId, fuel))
  }
}
