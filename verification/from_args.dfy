/**
 * Wirer::Factory::FromArgs: a factory assembled from an options hash and an
 * optional constructor block. Each dependency entry is normalised into a
 * descriptor; the `:class`/`:module` option decides whether a block is needed
 * and whether `:args` are kept as initial arguments.
 */
module FromArgsFactory {
  import opened Base
  import opened OrderedMaps
  import opened Classes
  import opened Errors
  import opened Values
  import opened FactoryInterface
  import opened Dependencies

  /** The option names `Factory::FromArgs` reads. */
  const OptionNames: seq<Value> :=
    [Sym("class"), Sym("module"), Sym("args"), Sym("features"), Sym("dependencies"),
     Sym("constructor_dependencies"), Sym("setter_dependencies")]

  /** The value bound last to `k` among the pairs, if any. */
  function LastBinding(ps: seq<(Value, Value)>, k: Value): Option<Value>
    decreases |ps|
  {
    if |ps| == 0 then None
    else match LastBinding(ps[1..], k)
      case Some(v) => Some(v)
      case None => if ps[0].0 == k then Some(ps[0].1) else None
  }

  /** In a hash every key is bound once, so the last binding is the lookup. */
  lemma {:induction false} LastBindingOfHash(h: OMap<Value, Value>, k: Value)
    requires Valid(h)
    ensures LastBinding(h.entries, k) == Get(h, k)
    decreases |h.entries|
  {
    if |h.entries| > 0 {
      var e := h.entries[0];
      var rest := OMap(h.entries[1..]);
      assert h.entries == [e] + rest.entries;
      GetCons(e, rest.entries, k);
      assert Keys(rest) == Keys(h)[1..];
      NoDuplicatesTail(Keys(h));
      LastBindingOfHash(rest, k);
      if e.0 == k {
        assert Keys(h)[0] == k;
        assert k !in Keys(rest);
        GetSpec(rest, k);
      }
    }
  }

  /** `pairs.each {|name, args| table[name] = Dependency.new_from_arg_or_args_list(args)}`. */
  function BuildTable(acc: DepTable, ps: seq<(Value, Value)>): Result<DepTable, ErrorClass>
    decreases |ps|
  {
    if |ps| == 0 then Ok(acc)
    else match NewFromArgOrArgsList(ps[0].1)
      case Err(e) => Err(e)
      case Ok(d) => BuildTable(Put(acc, ps[0].0, d), ps[1..])
  }

  /** Building the table fails exactly when some entry cannot be made into a descriptor. */
  lemma {:induction false} BuildTableOk(acc: DepTable, ps: seq<(Value, Value)>)
    ensures BuildTable(acc, ps).Ok? <==> forall i :: 0 <= i < |ps| ==> NewFromArgOrArgsList(ps[i].1).Ok?
    decreases |ps|
  {
    if |ps| > 0 {
      if NewFromArgOrArgsList(ps[0].1).Ok? {
        BuildTableOk(Put(acc, ps[0].0, NewFromArgOrArgsList(ps[0].1).value), ps[1..]);
        assert forall i :: 0 < i < |ps| ==> ps[i] == ps[1..][i - 1];
      }
    }
  }

  /**
   * Each name is bound to the descriptor built from its last entry, and a name
   * no entry mentions keeps what the table held.
   */
  lemma {:induction false} BuildTableGet(acc: DepTable, ps: seq<(Value, Value)>, k: Value)
    ensures var r := BuildTable(acc, ps);
      r.Ok? && LastBinding(ps, k).None? ==> Get(r.value, k) == Get(acc, k)
    ensures var r := BuildTable(acc, ps);
      r.Ok? && LastBinding(ps, k).Some? ==>
        && NewFromArgOrArgsList(LastBinding(ps, k).value).Ok?
        && Get(r.value, k) == Some(NewFromArgOrArgsList(LastBinding(ps, k).value).value)
    decreases |ps|
  {
    if |ps| > 0 && NewFromArgOrArgsList(ps[0].1).Ok? {
      var d := NewFromArgOrArgsList(ps[0].1).value;
      var acc' := Put(acc, ps[0].0, d);
      BuildTableGet(acc', ps[1..], k);
      assert BuildTable(acc, ps) == BuildTable(acc', ps[1..]);
      if LastBinding(ps[1..], k).None? {
        assert Get(acc', k) == if ps[0].0 == k then Some(d) else Get(acc, k);
      }
    }
  }

  /** A dependency option (a Hash, or anything `each` yields pairs from) made into a descriptor table. */
  function DependencyTable(spec: Value): (r: Result<DepTable, ErrorClass>)
    ensures EachPair(spec).None? ==> r == Err(NoMethodError)
    ensures EachPair(spec).Some? ==> r == BuildTable(Empty(), EachPair(spec).value)
  {
    match EachPair(spec)
    case None => Err(NoMethodError)
    case Some(ps) => BuildTable(Empty(), ps)
  }

  /**
   * A Hash of dependency specs gives a table with the same names, each bound
   * to the descriptor its spec normalises to.
   */
  lemma DependencyTableOfHash(h: OMap<Value, Value>, k: Value)
    requires Valid(h)
    ensures DependencyTable(HashV(h)).Ok? <==> forall i :: 0 <= i < |h.entries| ==> NewFromArgOrArgsList(h.entries[i].1).Ok?
    ensures DependencyTable(HashV(h)).Ok? ==>
      (if Get(h, k).Some? then NewFromArgOrArgsList(Get(h, k).value).Ok? &&
         Get(DependencyTable(HashV(h)).value, k) == Some(NewFromArgOrArgsList(Get(h, k).value).value)
       else Get(DependencyTable(HashV(h)).value, k) == None)
  {
    BuildTableOk(Empty(), h.entries);
    BuildTableGet(Empty(), h.entries, k);
    LastBindingOfHash(h, k);
    GetSpec(h, k);
  }

  /** The constructor dependency specs: `:constructor_dependencies`, else `:dependencies`, else `{}`. */
  function ConstructorSpec(opts: Options): (v: Value)
    ensures Truthy(Opt(opts, "constructor_dependencies")) ==> v == Opt(opts, "constructor_dependencies")
    ensures !Truthy(Opt(opts, "constructor_dependencies")) && Truthy(Opt(opts, "dependencies")) ==> v == Opt(opts, "dependencies")
    ensures !Truthy(Opt(opts, "constructor_dependencies")) && !Truthy(Opt(opts, "dependencies")) ==> v == HashV(Empty())
  {
    Or(Or(Opt(opts, "constructor_dependencies"), Opt(opts, "dependencies")), HashV(Empty()))
  }

  /** The setter dependency specs: `:setter_dependencies`, else `{}`. */
  function SetterSpec(opts: Options): Value {
    Or(Opt(opts, "setter_dependencies"), HashV(Empty()))
  }

  /**
   * `Factory::FromArgs.new(options, &block)`. The dependency tables are built
   * first; then a Class is the provided class and keeps `:args` as initial
   * arguments, a plain Module needs a block, no class at all means Object and
   * needs a block, and any other `:class` is a TypeError.
   */
  function NewFactory(key: Key, opts: Options, block: Option<Block>): Result<Factory, ErrorClass>
  {
    match DependencyTable(ConstructorSpec(opts))
    case Err(e) => Err(e)
    case Ok(ctor) =>
      match DependencyTable(SetterSpec(opts))
      case Err(e) => Err(e)
      case Ok(setter) =>
        var features := Or(Opt(opts, "features"), Arr([]));
        var c := Or(Opt(opts, "class"), Opt(opts, "module"));
        var args := Opt(opts, "args");
        if !features.Arr? then Err(TypeError)
        else if AsModule(c).Some? then
          var m := AsModule(c).value;
          if m.isClass then Ok(FromArgs(key, m, ctor, setter, features.elems, block, if Truthy(args) then Some(args) else None))
          else if block.None? then Err(ArgumentError)
          else Ok(FromArgs(key, m, ctor, setter, features.elems, block, None))
        else if c == Nil then
          if block.None? then Err(ArgumentError)
          else Ok(FromArgs(key, ObjectClass, ctor, setter, features.elems, block, None))
        else Err(TypeError)
  }

  /**
   * What `new` makes of its options: a FromArgs factory under the given key
   * and block, with the dependency tables the options describe, the features
   * given, the class or module given (Object when there is none) and initial
   * arguments only for a class given `:args`; a dependency table that cannot
   * be built is the error.
   */
  lemma NewFactorySpec(key: Key, opts: Options, block: Option<Block>)
    ensures var r := NewFactory(key, opts, block);
      r.Ok? ==> r.value.FromArgs? && r.value.key == key && r.value.block == block
    ensures var r := NewFactory(key, opts, block);
      && (r.Ok? ==> DependencyTable(ConstructorSpec(opts)) == Ok(ConstructorDependencies(r.value)))
      && (r.Ok? ==> DependencyTable(SetterSpec(opts)) == Ok(r.value.setterDeps))
      && (DependencyTable(ConstructorSpec(opts)).Err? ==> r == Err(DependencyTable(ConstructorSpec(opts)).error))
    ensures var r := NewFactory(key, opts, block);
      r.Ok? ==> ProvidesFeatures(r.value) == FeatureList(Or(Opt(opts, "features"), Arr([])))
    ensures var r := NewFactory(key, opts, block);
      var c := Or(Opt(opts, "class"), Opt(opts, "module"));
      && (r.Ok? && AsModule(c).Some? ==> r.value.cls == AsModule(c).value)
      && (r.Ok? && c == Nil ==> r.value.cls == ObjectClass)
      && (r.Ok? ==> (r.value.initialArgs.Some? <==> AsModule(c).Some? && AsModule(c).value.isClass && Truthy(Opt(opts, "args"))))
      && (r.Ok? && r.value.initialArgs.Some? ==> r.value.initialArgs.value == Opt(opts, "args"))
      && (r.Ok? && block.None? ==> AsModule(c).Some? && AsModule(c).value.isClass)
      && (AsModule(c).None? && c != Nil ==> r.Err?)
  {
  }

  /**
   * The argument checks once the tables are built: a Module without a block
   * and no class without a block are ArgumentErrors, a `:class` that is not a
   * Module is a TypeError.
   */
  lemma NewFactoryValidation(key: Key, opts: Options, block: Option<Block>)
    requires DependencyTable(ConstructorSpec(opts)).Ok? && DependencyTable(SetterSpec(opts)).Ok?
    requires Or(Opt(opts, "features"), Arr([])).Arr?
    ensures var c := Or(Opt(opts, "class"), Opt(opts, "module"));
      && (AsModule(c).Some? && !AsModule(c).value.isClass && block.None? ==> NewFactory(key, opts, block) == Err(ArgumentError))
      && (c == Nil && block.None? ==> NewFactory(key, opts, block) == Err(ArgumentError))
      && (AsModule(c).None? && c != Nil ==> NewFactory(key, opts, block) == Err(TypeError))
      && (AsModule(c).Some? && (AsModule(c).value.isClass || block.Some?) ==> NewFactory(key, opts, block).Ok?)
      && (c == Nil && block.Some? ==> NewFactory(key, opts, block).Ok?)
  {
  }

  /**
   * How a FromArgs factory builds: with a block, the block gets the
   * dependencies hash then the call's arguments; otherwise the class is
   * instantiated with the dependencies merged into the arguments and the
   * initial arguments in front, unless its `new` raises.
   */
  lemma FromArgsBuild(key: Key, opts: Options, block: Option<Block>, w: World, deps: OMap<Value, Value>, args: seq<Value>, id: nat)
    requires NewFactory(key, opts, block).Ok?
    ensures var f := NewFactory(key, opts, block).value;
      && (block.Some? ==> Build(f, w, deps, args, id) == RunBlock(block.value, [HashV(deps)] + args, id))
      && (block.None? && ProvidesClass(f) !in w.failing ==>
            Build(f, w, deps, args, id) == Ok(New(id, ProvidesClass(f), PrependInitial(f.initialArgs, MergeDependencies(args, deps)))))
      && (block.None? && ProvidesClass(f) in w.failing ==> Build(f, w, deps, args, id) == Err(w.failing[ProvidesClass(f)]))
      && (block.None? ==> f.cls.isClass)
  {
  }
}
