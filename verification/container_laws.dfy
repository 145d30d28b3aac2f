/**
 * What the argument styles of `Container#add` register, and what the
 * container promises across requests: the last registration of a name wins,
 * and a singleton is built once and then handed out unchanged.
 */
module RegistryLaws {
  import opened Base
  import opened OrderedMaps
  import opened Classes
  import opened Values
  import opened FactoryInterface
  import opened Dependencies
  import opened Sessions
  import opened Registry
  import SessionLaws
  import Wrapping
  import FromArgsFactory

  /** The options `add :name, ...` normalises to when no options hash is given. */
  function NamedOptions(name: string): Options {
    Put(Put(Empty(), Sym("method_name"), Sym(name)), Sym("features"), Arr([Sym(name)]))
  }

  /** No options hash and no `:default`: normalisation starts from an empty hash. */
  lemma NoOptionsGiven(args: seq<Value>)
    requires |args| > 0 && !args[|args| - 1].HashV?
    ensures SplitOptions(args) == (args, Empty())
    ensures DefaultOption(Empty()) == Ok(Empty()) && WrapDependencies(Empty()) == Empty()
  {
    assert Delete(Empty<Value, Value>(), Sym("default")) == Empty();
  }

  /** The two options a leading name sets. */
  lemma NamedOptionsKeys(name: string)
    ensures Keys(NamedOptions(name)) == [Sym("method_name"), Sym("features")]
    ensures Opt(NamedOptions(name), "method_name") == Sym(name) && Opt(NamedOptions(name), "features") == Arr([Sym(name)])
  {
    PutPut(Sym("method_name"), Sym(name), Sym("features"), Arr([Sym(name)]));
  }

  /** A leading name with no options given: it becomes the method name and the one feature. */
  lemma NamedFeatureOfName(name: string, main: Value)
    ensures NamedFeature([Sym(name), main], Empty()) == Ok(([main], NamedOptions(name)))
  {
    var named := Put(Empty(), Sym("method_name"), Sym(name));
    assert Opt(Empty(), "method_name") == Nil;
    assert Opt(named, "features") == Nil;
    assert AppendFeature(named, Sym(name)) == Ok(NamedOptions(name));
  }

  /** `add :name, main`: the main argument follows the name, which is the method name and the one feature. */
  lemma NormaliseNamed(name: string, main: Value)
    requires !main.HashV?
    ensures NormaliseAdd([Sym(name), main]) == Ok(AddCall(main, [], NamedOptions(name)))
  {
    NoOptionsGiven([Sym(name), main]);
    NamedFeatureOfName(name, main);
    assert [main][1..] == [];
  }

  /** So `add :name, main` dispatches on `main` with the name's options and no leftover positionals. */
  lemma AddNamedDispatch(c: Container, w: World, name: string, main: Value)
    requires !main.HashV?
    ensures Add(c, w, [Sym(name), main], None) == Dispatch(c, w, AddCall(main, [], NamedOptions(name)), None)
  {
    NormaliseNamed(name, main);
  }

  /** A FromArgs factory for a class, with features but no dependency options and no `:args`. */
  lemma PlainClassFactory(key: Key, opts: Options, m: Mod, xs: seq<Value>)
    requires m.isClass && Opt(opts, "class") == ModV(m) && Opt(opts, "features") == Arr(xs)
    requires Opt(opts, "constructor_dependencies") == Nil && Opt(opts, "dependencies") == Nil
    requires Opt(opts, "setter_dependencies") == Nil && Opt(opts, "args") == Nil
    ensures FromArgsFactory.NewFactory(key, opts, None) == Ok(FromArgs(key, m, Empty(), Empty(), xs, None, None))
  {
    assert FromArgsFactory.ConstructorSpec(opts) == HashV(Empty());
    assert FromArgsFactory.DependencyTable(HashV(Empty())) == Ok(Empty());
  }

  /** Registering such a factory: it goes last, with an empty slot, under its method name if it has one. */
  lemma AddPlainClass(c: Container, opts: Options, m: Mod, xs: seq<Value>)
    requires m.isClass && Opt(opts, "class") == ModV(m) && Opt(opts, "features") == Arr(xs)
    requires Opt(opts, "constructor_dependencies") == Nil && Opt(opts, "dependencies") == Nil
    requires Opt(opts, "setter_dependencies") == Nil && Opt(opts, "args") == Nil && Opt(opts, "singleton") == Nil
    ensures var f := FromArgs(AddedKey(c.nextKey), m, Empty(), Empty(), xs, None, None);
      var name := Opt(opts, "method_name");
      AddNewFactory(c, opts, None) ==
        Ok(Container(c.factories + [f], c.slots[f.key := Nil], if Truthy(name) then Put(c.names, name, f) else c.names,
                     c.nextKey + 1, c.nextId))
  {
    var f := FromArgs(AddedKey(c.nextKey), m, Empty(), Empty(), xs, None, None);
    PlainClassFactory(AddedKey(c.nextKey), opts, m, xs);
    assert AddNewFactory(c, opts, None) == RegisterNew(c, Ok(f), opts);
    RegisterNewMade(c, opts, f);
    AddUnsetSingleton(Container(c.factories, c.slots, c.names, c.nextKey + 1, c.nextId), f, opts);
  }

  /** Once the FromArgs factory is made, `add_new_factory` registers it under a fresh key with the same options. */
  lemma RegisterNewMade(c: Container, opts: Options, f: Factory)
    ensures RegisterNew(c, Ok(f), opts) == AddFactoryInstance(Container(c.factories, c.slots, c.names, c.nextKey + 1, c.nextId), FactoryV(f), opts)
  {
  }

  /** `add_factory_instance` with `:singleton` unset: the factory goes last with an empty slot. */
  lemma AddUnsetSingleton(c: Container, f: Factory, opts: Options)
    requires Opt(opts, "singleton") == Nil
    ensures var name := Opt(opts, "method_name");
      AddFactoryInstance(c, FactoryV(f), opts) ==
        Ok(Container(c.factories + [f], c.slots[f.key := Nil], if Truthy(name) then Put(c.names, name, f) else c.names, c.nextKey, c.nextId))
  {
  }

  /** Options holding only a method name, features and a class leave every other option unset. */
  lemma OnlyNameFeaturesClass(opts: Options)
    requires Keys(opts) == [Sym("method_name"), Sym("features"), Sym("class")]
    ensures Opt(opts, "constructor_dependencies") == Nil && Opt(opts, "dependencies") == Nil
    ensures Opt(opts, "setter_dependencies") == Nil && Opt(opts, "args") == Nil && Opt(opts, "singleton") == Nil
  {
    OptAbsent(opts, "constructor_dependencies");
    OptAbsent(opts, "dependencies");
    OptAbsent(opts, "setter_dependencies");
    OptAbsent(opts, "args");
    OptAbsent(opts, "singleton");
  }

  /** The options `add :name, SomeClass` hands to `add_new_factory`. */
  lemma NamedClassOptions(name: string, m: Mod)
    ensures var opts := Put(NamedOptions(name), Sym("class"), ModV(m));
      && Opt(opts, "class") == ModV(m) && Opt(opts, "features") == Arr([Sym(name)]) && Opt(opts, "method_name") == Sym(name)
      && Opt(opts, "constructor_dependencies") == Nil && Opt(opts, "dependencies") == Nil
      && Opt(opts, "setter_dependencies") == Nil && Opt(opts, "args") == Nil && Opt(opts, "singleton") == Nil
  {
    var opts := Put(NamedOptions(name), Sym("class"), ModV(m));
    NamedClassKeys(name, m);
    OnlyNameFeaturesClass(opts);
    NamedClassGiven(name, m);
  }

  /** Adding `:class` to the name's options puts it third. */
  lemma NamedClassKeys(name: string, m: Mod)
    ensures Keys(Put(NamedOptions(name), Sym("class"), ModV(m))) == [Sym("method_name"), Sym("features"), Sym("class")]
  {
    NamedOptionsKeys(name);
    assert Sym("class") !in Keys(NamedOptions(name));
  }

  /** The three options `add :name, SomeClass` sets. */
  lemma NamedClassGiven(name: string, m: Mod)
    ensures var opts := Put(NamedOptions(name), Sym("class"), ModV(m));
      Opt(opts, "class") == ModV(m) && Opt(opts, "features") == Arr([Sym(name)]) && Opt(opts, "method_name") == Sym(name)
  {
    var named := NamedOptions(name);
    NamedOptionsKeys(name);
    OptPutSame(named, "class", ModV(m));
    OptPut(named, Sym("class"), ModV(m), "features");
    OptPut(named, Sym("class"), ModV(m), "method_name");
  }

  /**
   * `add :logger, Logger`: a FromArgs factory for the class, registered under
   * the name, providing the name as its one feature, with an empty singleton
   * slot and no dependencies.
   */
  lemma AddNamedClass(c: Container, w: World, name: string, m: Mod)
    requires m.isClass
    ensures var f := FromArgs(AddedKey(c.nextKey), m, Empty(), Empty(), [Sym(name)], None, None);
      Add(c, w, [Sym(name), ModV(m)], None) ==
        Ok(Container(c.factories + [f], c.slots[f.key := Nil], Put(c.names, Sym(name), f), c.nextKey + 1, c.nextId))
  {
    AddNamedModule(c, w, name, m);
    NamedClassOptions(name, m);
    AddPlainClass(c, Put(NamedOptions(name), Sym("class"), ModV(m)), m, [Sym(name)]);
  }

  /** `add :name, SomeModule` is `add_new_factory` with the name's options and the Module as `:class`. */
  lemma AddNamedModule(c: Container, w: World, name: string, m: Mod)
    ensures Add(c, w, [Sym(name), ModV(m)], None) == AddNewFactory(c, Put(NamedOptions(name), Sym("class"), ModV(m)), None)
  {
    AddNamedDispatch(c, w, name, ModV(m));
    DispatchModule(c, w, m, [], NamedOptions(name), None);
  }

  /** Options holding only a method name and features leave `:singleton` unset. */
  lemma NamedOptionsSingleton(name: string)
    ensures Opt(NamedOptions(name), "singleton") == Nil
  {
    NamedOptionsKeys(name);
    OptAbsent(NamedOptions(name), "singleton");
  }

  /**
   * `add :config, object`: an object that is neither a factory, a Module nor
   * nil is registered as a constant-instance factory under the name, with the
   * name as its one feature and an empty singleton slot.
   */
  lemma AddNamedInstance(c: Container, w: World, name: string, instance: Value)
    requires !instance.HashV? && !instance.FactoryV? && !instance.ModV? && instance != Nil
    ensures var f := FromInstance(AddedKey(c.nextKey), instance, [Sym(name)]);
      Add(c, w, [Sym(name), instance], None) ==
        Ok(Container(c.factories + [f], c.slots[f.key := Nil], Put(c.names, Sym(name), f), c.nextKey + 1, c.nextId))
  {
    AddNamedDispatch(c, w, name, instance);
    DispatchNamedInstance(c, w, name, instance);
  }

  /** The registration half of `add :config, object`. */
  lemma DispatchNamedInstance(c: Container, w: World, name: string, instance: Value)
    requires !instance.FactoryV? && !instance.ModV? && instance != Nil
    ensures var f := FromInstance(AddedKey(c.nextKey), instance, [Sym(name)]);
      Dispatch(c, w, AddCall(instance, [], NamedOptions(name)), None) ==
        Ok(Container(c.factories + [f], c.slots[f.key := Nil], Put(c.names, Sym(name), f), c.nextKey + 1, c.nextId))
  {
    var named := NamedOptions(name);
    DispatchInstance(c, w, instance, [], named, None);
    NamedOptionsKeys(name);
    NamedOptionsSingleton(name);
    AddInstanceSingleton(c, instance, named);
    assert InstanceFeatures(Opt(named, "features")) == [Sym(name)];
  }

  /** `add_instance` with `:singleton` unset: the instance's factory goes last with an empty slot. */
  lemma AddInstanceSingleton(c: Container, instance: Value, opts: Options)
    requires Opt(opts, "singleton") == Nil
    ensures var f := FromInstance(AddedKey(c.nextKey), instance, InstanceFeatures(Opt(opts, "features")));
      var name := Opt(opts, "method_name");
      AddInstance(c, instance, opts) ==
        Container(c.factories + [f], c.slots[f.key := Nil], if Truthy(name) then Put(c.names, name, f) else c.names,
                  c.nextKey + 1, c.nextId)
  {
  }

  /**
   * `add factory`: a factory with no options and no block is registered as
   * it is, not wrapped; this holds for a class that is its own factory too,
   * which is not turned into a FromArgs factory although it is a Module.
   */
  lemma AddFactoryAsIs(c: Container, w: World, g: Factory)
    ensures Add(c, w, [FactoryV(g)], None) == Ok(Container(c.factories + [g], c.slots[g.key := Nil], c.names, c.nextKey, c.nextId))
  {
    NormaliseFactory(g);
    DispatchFactoryAsIs(c, w, g);
  }

  /** A factory alone normalises to itself with no options. */
  lemma NormaliseFactory(g: Factory)
    ensures NormaliseAdd([FactoryV(g)]) == Ok(AddCall(FactoryV(g), [], Empty()))
  {
    NoOptionsGiven([FactoryV(g)]);
    assert NamedFeature([FactoryV(g)], Empty()) == Ok(([FactoryV(g)], Empty()));
    assert [FactoryV(g)][1..] == [];
  }

  /** The registration half of `add factory`. */
  lemma DispatchFactoryAsIs(c: Container, w: World, g: Factory)
    ensures Dispatch(c, w, AddCall(FactoryV(g), [], Empty()), None) == Ok(Container(c.factories + [g], c.slots[g.key := Nil], c.names, c.nextKey, c.nextId))
  {
    NothingToWrap();
    assert WithRest(Empty(), []) == Empty();
    var r := AddFactoryInstance(c, FactoryV(g), RegistrationOptions(Empty()));
    assert AddFactory(c, w, g, Empty(), None) == r;
    assert r.value.slots == c.slots[g.key := Nil];
  }

  /** With no options, `add_factory` has nothing to wrap with and registers a nameless singleton. */
  lemma NothingToWrap()
    ensures Keys(WrapOptions(Empty())) == []
    ensures Opt(RegistrationOptions(Empty()), "singleton") == Nil && Opt(RegistrationOptions(Empty()), "method_name") == Nil
  {
    assert Keys(Delete(Empty<Value, Value>(), Sym("method_name"))) == [];
  }

  /**
   * A singleton is built once per container: after a by-name request returns
   * a (truthy) instance, the instance fills the slot, and asking again
   * returns it with the container unchanged and nothing injected or
   * post-initialised.
   */
  lemma SingletonByName(c: Container, w: World, name: Value, fuel: nat, fuel2: nat)
    requires FactoryByName(c, name).Some? && FactoryByName(c, name).value.key in c.slots
    requires var r1 := ConstructByName(c, w, name, [], false, fuel);
      r1.result.Ok? && Truthy(r1.result.value)
    ensures var r1 := ConstructByName(c, w, name, [], false, fuel);
      && r1.c.slots[FactoryByName(c, name).value.key] == r1.result.value
      && ConstructByName(r1.c, w, name, [], false, fuel2) == Reply(r1.result, r1.c, [])
  {
    var f := FactoryByName(c, name).value;
    SessionLaws.SingletonStable(EnvOf(c, w), f, c.slots, c.nextId, fuel, fuel2);
  }
}
