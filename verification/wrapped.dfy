/**
 * Wirer::Factory::Wrapped: an existing factory seen through extra options. The
 * wrapper provides the same class, possibly more features, possibly narrower
 * dependency descriptors, and either fixed initial arguments or a replacement
 * constructor block; injection and post-initialisation go to the wrapped
 * factory unchanged.
 */
module Wrapping {
  import opened Base
  import opened OrderedMaps
  import opened Classes
  import opened Errors
  import opened Values
  import opened FactoryInterface
  import opened Dependencies

  /** The option names `Factory::Wrapped` reads. */
  const OptionNames: seq<Value> := [Sym("args"), Sym("features"), Sym("dependencies")]

  /**
   * The dependency tables while refinements are applied; `static` records that
   * a setter dependency was refined, which fixes the setter table for good.
   */
  datatype Tables = Tables(ctor: DepTable, setter: DepTable, isStatic: bool)

  /**
   * The error for a refinement naming no dependency of the wrapped factory: the
   * source means to raise `Wirer::Error`, but its message refers to an
   * undefined local, so what is raised is a NameError.
   */
  function UnknownNameError(asWritten: bool): ErrorClass {
    if asWritten then NameError else WirerError
  }

  /**
   * One step of the loop over `:dependencies`: the refinement is normalised, then
   * applied with `with_options` to the constructor dependency of that name, or
   * else to the setter dependency of that name.
   */
  function RefineStep(t: Tables, name: Value, args: Value, w: World, asWritten: bool): Result<Tables, ErrorClass> {
    match NormaliseArgOrArgsList(args)
    case Err(e) => Err(e)
    case Ok(extra) =>
      if Get(t.ctor, name).Some? then
        var d := Refine(Get(t.ctor, name).value, extra, w, asWritten);
        if d.Err? then Err(d.error) else Ok(t.(ctor := Put(t.ctor, name, d.value)))
      else if Get(t.setter, name).Some? then
        var d := Refine(Get(t.setter, name).value, extra, w, asWritten);
        if d.Err? then Err(d.error) else Ok(t.(setter := Put(t.setter, name, d.value), isStatic := true))
      else Err(UnknownNameError(asWritten))
  }

  /** The whole loop, in the order the refinements are given, stopping at the first error. */
  function RefineTables(t: Tables, refinements: seq<(Value, Value)>, w: World, asWritten: bool): Result<Tables, ErrorClass>
    decreases |refinements|
  {
    if |refinements| == 0 then Ok(t)
    else
      match RefineStep(t, refinements[0].0, refinements[0].1, w, asWritten)
      case Err(e) => Err(e)
      case Ok(t') => RefineTables(t', refinements[1..], w, asWritten)
  }

  /** A refinement step never adds or removes a dependency name, in either table. */
  lemma RefineStepKeys(t: Tables, name: Value, args: Value, w: World, asWritten: bool)
    ensures var r := RefineStep(t, name, args, w, asWritten);
      r.Ok? ==> Keys(r.value.ctor) == Keys(t.ctor) && Keys(r.value.setter) == Keys(t.setter)
  {
    var n := NormaliseArgOrArgsList(args);
    GetSpec(t.ctor, name);
    GetSpec(t.setter, name);
    if n.Ok? {
      if Get(t.ctor, name).Some? {
        var d := Refine(Get(t.ctor, name).value, n.value, w, asWritten);
        assert d.Ok? ==> RefineStep(t, name, args, w, asWritten) == Ok(t.(ctor := Put(t.ctor, name, d.value)));
      } else if Get(t.setter, name).Some? {
        var d := Refine(Get(t.setter, name).value, n.value, w, asWritten);
        assert d.Ok? ==> RefineStep(t, name, args, w, asWritten) == Ok(t.(setter := Put(t.setter, name, d.value), isStatic := true));
      }
    }
  }

  /** Refining keeps the dependency names of both tables, and their order. */
  lemma {:induction false} RefineTablesKeys(t: Tables, refinements: seq<(Value, Value)>, w: World, asWritten: bool)
    ensures var r := RefineTables(t, refinements, w, asWritten);
      r.Ok? ==> Keys(r.value.ctor) == Keys(t.ctor) && Keys(r.value.setter) == Keys(t.setter)
    decreases |refinements|
  {
    if |refinements| > 0 {
      var step := RefineStep(t, refinements[0].0, refinements[0].1, w, asWritten);
      RefineStepKeys(t, refinements[0].0, refinements[0].1, w, asWritten);
      if step.Ok? {
        RefineTablesKeys(step.value, refinements[1..], w, asWritten);
      }
    }
  }

  /** A dependency that no refinement names keeps its descriptor, in either table. */
  lemma {:induction false} RefineTablesUntouched(t: Tables, refinements: seq<(Value, Value)>, w: World, asWritten: bool, k: Value)
    requires forall i :: 0 <= i < |refinements| ==> refinements[i].0 != k
    ensures var r := RefineTables(t, refinements, w, asWritten);
      r.Ok? ==> Get(r.value.ctor, k) == Get(t.ctor, k) && Get(r.value.setter, k) == Get(t.setter, k)
    decreases |refinements|
  {
    if |refinements| > 0 {
      var next := AfterFirstStepKeeps(t, refinements, w, asWritten, k);
      if next.Some? {
        RefineTablesUntouched(next.value, refinements[1..], w, asWritten, k);
      }
    }
  }

  /**
   * The tables after the loop's first step, or None when that step fails and
   * so the loop does; a dependency the step does not name keeps its descriptor.
   */
  lemma AfterFirstStepKeeps(t: Tables, refinements: seq<(Value, Value)>, w: World, asWritten: bool, k: Value) returns (next: Option<Tables>)
    requires |refinements| > 0 && refinements[0].0 != k
    ensures next.None? ==> RefineTables(t, refinements, w, asWritten).Err?
    ensures next.Some? ==> && Get(next.value.ctor, k) == Get(t.ctor, k) && Get(next.value.setter, k) == Get(t.setter, k)
                           && RefineTables(t, refinements, w, asWritten) == RefineTables(next.value, refinements[1..], w, asWritten)
  {
    RefineTablesFirst(t, refinements, w, asWritten);
    var step := RefineStep(t, refinements[0].0, refinements[0].1, w, asWritten);
    next := if step.Ok? then Some(step.value) else None;
  }

  /**
   * The setter table becomes static exactly when some refinement names a
   * dependency that is not a constructor dependency (and so, the loop having
   * succeeded, a setter dependency).
   */
  lemma {:induction false} RefineTablesStatic(t: Tables, refinements: seq<(Value, Value)>, w: World, asWritten: bool)
    ensures var r := RefineTables(t, refinements, w, asWritten);
      r.Ok? ==> (r.value.isStatic <==> t.isStatic || exists i :: 0 <= i < |refinements| && !HasKey(t.ctor, refinements[i].0))
    decreases |refinements|
  {
    if |refinements| > 0 {
      var step := RefineStep(t, refinements[0].0, refinements[0].1, w, asWritten);
      RefineStepKeys(t, refinements[0].0, refinements[0].1, w, asWritten);
      GetSpec(t.ctor, refinements[0].0);
      if step.Ok? {
        RefineTablesStatic(step.value, refinements[1..], w, asWritten);
        var r := RefineTables(t, refinements, w, asWritten);
        if r.Ok? {
          assert step.value.isStatic <==> t.isStatic || !HasKey(t.ctor, refinements[0].0);
          assert forall i :: 0 < i < |refinements| ==> refinements[i] == refinements[1..][i - 1];
          if exists i :: 0 <= i < |refinements| && !HasKey(t.ctor, refinements[i].0) {
            var i :| 0 <= i < |refinements| && !HasKey(t.ctor, refinements[i].0);
            if i > 0 {
              assert !HasKey(step.value.ctor, refinements[1..][i - 1].0);
            }
          }
        }
      }
    }
  }

  /** A refinement naming neither a constructor nor a setter dependency makes the loop fail. */
  lemma {:induction false} RefineTablesUnknown(t: Tables, refinements: seq<(Value, Value)>, w: World, asWritten: bool, i: nat, x: Value)
    requires i < |refinements| && refinements[i].0 == x
    requires !HasKey(t.ctor, x) && !HasKey(t.setter, x)
    ensures RefineTables(t, refinements, w, asWritten).Err?
    decreases |refinements|
  {
    var rest := refinements[1..];
    assert i > 0 ==> rest[i - 1] == refinements[i];
    var next := AfterFirstStep(t, refinements, w, asWritten, x);
    if i == 0 {
      FirstStepUnknown(t, refinements, w, asWritten);
    } else if next.Some? {
      RefineTablesUnknown(next.value, rest, w, asWritten, i - 1, x);
    }
  }

  /**
   * The tables after the loop's first step, or None when that step fails
   * and so the loop does; a name unknown before it stays unknown.
   */
  lemma AfterFirstStep(t: Tables, refinements: seq<(Value, Value)>, w: World, asWritten: bool, x: Value) returns (next: Option<Tables>)
    requires |refinements| > 0 && !HasKey(t.ctor, x) && !HasKey(t.setter, x)
    ensures next.None? ==> RefineTables(t, refinements, w, asWritten).Err?
    ensures next.Some? ==> && !HasKey(next.value.ctor, x) && !HasKey(next.value.setter, x)
                           && RefineTables(t, refinements, w, asWritten) == RefineTables(next.value, refinements[1..], w, asWritten)
  {
    RefineTablesFirst(t, refinements, w, asWritten);
    var step := RefineStep(t, refinements[0].0, refinements[0].1, w, asWritten);
    if step.Ok? {
      StepKeepsUnknown(t, refinements[0].0, refinements[0].1, w, asWritten, x);
      next := Some(step.value);
    } else {
      next := None;
    }
  }

  /** A first refinement naming neither table's dependency fails the loop. */
  lemma FirstStepUnknown(t: Tables, refinements: seq<(Value, Value)>, w: World, asWritten: bool)
    requires |refinements| > 0 && !HasKey(t.ctor, refinements[0].0) && !HasKey(t.setter, refinements[0].0)
    ensures RefineTables(t, refinements, w, asWritten).Err?
  {
    RefineTablesFirst(t, refinements, w, asWritten);
    RefineStepUnknown(t, refinements[0].0, refinements[0].1, w, asWritten);
  }

  /** A name unknown before a successful step is unknown after it. */
  lemma StepKeepsUnknown(t: Tables, name: Value, args: Value, w: World, asWritten: bool, x: Value)
    requires !HasKey(t.ctor, x) && !HasKey(t.setter, x)
    ensures var r := RefineStep(t, name, args, w, asWritten);
      r.Ok? ==> !HasKey(r.value.ctor, x) && !HasKey(r.value.setter, x)
  {
    RefineStepKeys(t, name, args, w, asWritten);
  }

  /** The loop's first step: its error ends the loop, else the rest runs on its tables. */
  lemma RefineTablesFirst(t: Tables, refinements: seq<(Value, Value)>, w: World, asWritten: bool)
    requires |refinements| > 0
    ensures var step := RefineStep(t, refinements[0].0, refinements[0].1, w, asWritten);
      RefineTables(t, refinements, w, asWritten) == if step.Err? then Err(step.error) else RefineTables(step.value, refinements[1..], w, asWritten)
  {
  }

  /** A step naming neither a constructor nor a setter dependency fails. */
  lemma RefineStepUnknown(t: Tables, name: Value, args: Value, w: World, asWritten: bool)
    requires !HasKey(t.ctor, name) && !HasKey(t.setter, name)
    ensures RefineStep(t, name, args, w, asWritten).Err?
  {
    GetSpec(t.ctor, name);
    GetSpec(t.setter, name);
  }

  /** The refinements the `:dependencies` option asks for, or the error `each` raises. */
  function RefinementsOption(opts: Options): (r: Result<seq<(Value, Value)>, ErrorClass>)
    ensures !Truthy(Opt(opts, "dependencies")) ==> r == Ok([])
    ensures Opt(opts, "dependencies").HashV? ==> r == Ok(Opt(opts, "dependencies").h.entries)
  {
    var extra := Opt(opts, "dependencies");
    if !Truthy(extra) then Ok([])
    else match EachPair(extra)
      case Some(ps) => Ok(ps)
      case None => Err(NoMethodError)
  }

  /** `provides_features | extra` when `:features` is given; Array#| rejects a non-Array. */
  function WrappedFeatures(f: Factory, opts: Options): (r: Result<seq<Value>, ErrorClass>)
    ensures !Truthy(Opt(opts, "features")) ==> r == Ok(ProvidesFeatures(f))
    ensures Truthy(Opt(opts, "features")) ==> (r.Ok? <==> Opt(opts, "features").Arr?)
    ensures r.Err? ==> r.error == TypeError
    ensures r.Ok? ==> forall x :: x in r.value <==> x in ProvidesFeatures(f) || x in FeatureList(Opt(opts, "features"))
    ensures r.Ok? && Truthy(Opt(opts, "features")) ==> IsPrefix(Dedup(ProvidesFeatures(f)), r.value)
  {
    var extra := Opt(opts, "features");
    if !Truthy(extra) then Ok(ProvidesFeatures(f))
    else if extra.Arr? then Ok(Union(ProvidesFeatures(f), extra.elems))
    else Err(TypeError)
  }

  /** `Factory::Wrapped.new(factory, options, &block)`, corrected or as written. */
  function NewWrappedWith(key: Key, f: Factory, opts: Options, block: Option<Block>, w: World, asWritten: bool): Result<Factory, ErrorClass> {
    var features := WrappedFeatures(f, opts);
    var refinements := RefinementsOption(opts);
    if features.Err? then Err(features.error)
    else if refinements.Err? then Err(refinements.error)
    else
      var t := RefineTables(Tables(ConstructorDependencies(f), SetterDependencies(f, Nil), false), refinements.value, w, asWritten);
      if t.Err? then Err(t.error)
      else
        var args := Opt(opts, "args");
        Ok(Wrapped(key, f, ProvidesClass(f), features.value, t.value.ctor,
                   if t.value.isStatic then Some(t.value.setter) else None,
                   if Truthy(args) then Some(args) else None,
                   if Truthy(args) then None else block))
  }

  /**
   * What the wrapper is made of: the wrapped factory and its class, the
   * features `provides_features | extra` gives, `:args` or else the block,
   * and the dependency tables the refinement loop leaves; it fails as the
   * features or the loop fail.
   */
  lemma NewWrappedWithSpec(key: Key, f: Factory, opts: Options, block: Option<Block>, w: World, asWritten: bool)
    ensures var r := NewWrappedWith(key, f, opts, block, w, asWritten);
      r.Ok? ==> && r.value.Wrapped? && r.value.key == key && r.value.inner == f
                && ProvidesClass(r.value) == ProvidesClass(f)
                && WrappedFeatures(f, opts) == Ok(ProvidesFeatures(r.value))
    ensures var r := NewWrappedWith(key, f, opts, block, w, asWritten);
      r.Ok? && Truthy(Opt(opts, "args")) ==> r.value.initialArgs == Some(Opt(opts, "args")) && r.value.block.None?
    ensures var r := NewWrappedWith(key, f, opts, block, w, asWritten);
      r.Ok? && !Truthy(Opt(opts, "args")) ==> r.value.initialArgs.None? && r.value.block == block
    ensures WrappedFeatures(f, opts).Err? ==> NewWrappedWith(key, f, opts, block, w, asWritten) == Err(TypeError)
    ensures var r := NewWrappedWith(key, f, opts, block, w, asWritten);
      WrappedFeatures(f, opts).Ok? && RefinementsOption(opts).Ok? ==>
        var t := RefineTables(Tables(ConstructorDependencies(f), SetterDependencies(f, Nil), false), RefinementsOption(opts).value, w, asWritten);
        && (r.Ok? <==> t.Ok?)
        && (r.Ok? ==> ConstructorDependencies(r.value) == t.value.ctor)
        && (r.Ok? ==> r.value.staticSetterDeps == if t.value.isStatic then Some(t.value.setter) else None)
  {
  }

  /**
   * `Factory::Wrapped.new`, which `wrapped_with` calls on the receiver: same
   * class, the features unioned in order, each refined dependency narrowed,
   * `:args` taking precedence over a block.
   */
  function NewWrapped(key: Key, f: Factory, opts: Options, block: Option<Block>, w: World): Result<Factory, ErrorClass> {
    NewWrappedWith(key, f, opts, block, w, false)
  }

  /**
   * What `Factory::Wrapped.new` promises: a wrapper of `f` with its class,
   * providing every feature of `f` (first, in order) and every extra one and
   * nothing else; a non-Array `:features` is a TypeError; `:args` wins over
   * the block; without `:dependencies` the constructor dependencies are the
   * wrapped factory's and no setter table of its own is kept.
   */
  lemma NewWrappedSpec(key: Key, f: Factory, opts: Options, block: Option<Block>, w: World)
    ensures var r := NewWrapped(key, f, opts, block, w);
      r.Ok? ==> r.value.Wrapped? && r.value.key == key && r.value.inner == f && ProvidesClass(r.value) == ProvidesClass(f)
    ensures var r := NewWrapped(key, f, opts, block, w);
      r.Ok? ==> forall x :: x in ProvidesFeatures(r.value) <==> x in ProvidesFeatures(f) || x in FeatureList(Opt(opts, "features"))
    ensures var r := NewWrapped(key, f, opts, block, w);
      r.Ok? && Truthy(Opt(opts, "features")) ==> IsPrefix(Dedup(ProvidesFeatures(f)), ProvidesFeatures(r.value))
    ensures var r := NewWrapped(key, f, opts, block, w);
      r.Ok? && !Truthy(Opt(opts, "features")) ==> ProvidesFeatures(r.value) == ProvidesFeatures(f)
    ensures Truthy(Opt(opts, "features")) && !Opt(opts, "features").Arr? ==> NewWrapped(key, f, opts, block, w) == Err(TypeError)
    ensures var r := NewWrapped(key, f, opts, block, w);
      r.Ok? && Truthy(Opt(opts, "args")) ==> r.value.initialArgs == Some(Opt(opts, "args")) && r.value.block.None?
    ensures var r := NewWrapped(key, f, opts, block, w);
      r.Ok? && !Truthy(Opt(opts, "args")) ==> r.value.initialArgs.None? && r.value.block == block
    ensures var r := NewWrapped(key, f, opts, block, w);
      r.Ok? && !Truthy(Opt(opts, "dependencies")) ==>
        ConstructorDependencies(r.value) == ConstructorDependencies(f) && r.value.staticSetterDeps.None?
  {
    NewWrappedWithSpec(key, f, opts, block, w, false);
  }

  /** `Factory::Wrapped.new` exactly as written: the as-written `with_options`, and NameError for an unknown name. */
  function NewWrappedAsWritten(key: Key, f: Factory, opts: Options, block: Option<Block>, w: World): Result<Factory, ErrorClass> {
    NewWrappedWith(key, f, opts, block, w, true)
  }

  /** The as-written constructor wraps `f` with its class, and differs from the corrected one only through `:dependencies`. */
  lemma NewWrappedAsWrittenSpec(key: Key, f: Factory, opts: Options, block: Option<Block>, w: World)
    ensures var r := NewWrappedAsWritten(key, f, opts, block, w);
      r.Ok? ==> r.value.Wrapped? && r.value.inner == f && ProvidesClass(r.value) == ProvidesClass(f)
    ensures !Truthy(Opt(opts, "dependencies")) ==> NewWrappedAsWritten(key, f, opts, block, w) == NewWrapped(key, f, opts, block, w)
  {
    NewWrappedWithSpec(key, f, opts, block, w, true);
  }

  /**
   * What the wrapper's dependency tables are: every name of the wrapped
   * factory's constructor table, in order, with unrefined descriptors kept;
   * a setter table of its own only when a setter dependency was refined.
   */
  lemma WrappedTables(key: Key, f: Factory, opts: Options, block: Option<Block>, w: World, k: Value)
    requires NewWrapped(key, f, opts, block, w).Ok?
    ensures var r := NewWrapped(key, f, opts, block, w).value;
      var refs := RefinementsOption(opts).value;
      && Keys(ConstructorDependencies(r)) == Keys(ConstructorDependencies(f))
      && ((forall i :: 0 <= i < |refs| ==> refs[i].0 != k) ==>
            Get(ConstructorDependencies(r), k) == Get(ConstructorDependencies(f), k))
      && (r.staticSetterDeps.Some? <==> exists i :: 0 <= i < |refs| && !HasKey(ConstructorDependencies(f), refs[i].0))
      && (r.staticSetterDeps.Some? ==> Keys(r.staticSetterDeps.value) == Keys(SetterDependencies(f, Nil)))
  {
    var t0 := Tables(ConstructorDependencies(f), SetterDependencies(f, Nil), false);
    var refs := RefinementsOption(opts).value;
    RefineTablesKeys(t0, refs, w, false);
    RefineTablesStatic(t0, refs, w, false);
    if forall i :: 0 <= i < |refs| ==> refs[i].0 != k {
      RefineTablesUntouched(t0, refs, w, false, k);
    }
  }

  /**
   * Building through a wrapper: its block alone when it kept one, otherwise the
   * wrapped factory with the initial arguments in front of the call's and the
   * same dependencies.
   */
  lemma WrappedBuild(key: Key, f: Factory, opts: Options, block: Option<Block>, w: World,
                     deps: OMap<Value, Value>, args: seq<Value>, id: nat)
    requires NewWrapped(key, f, opts, block, w).Ok?
    ensures var r := NewWrapped(key, f, opts, block, w).value;
      var initial := Opt(opts, "args");
      && (Truthy(initial) ==> Build(r, w, deps, args, id) == Build(f, w, deps, PrependInitial(Some(initial), args), id))
      && (!Truthy(initial) && block.Some? ==> Build(r, w, deps, args, id) == RunBlock(block.value, [HashV(deps)] + args, id))
      && (!Truthy(initial) && block.None? ==> Build(r, w, deps, args, id) == Build(f, w, deps, args, id))
  {
  }

  /**
   * Injection and post-initialisation through a wrapper are the wrapped
   * factory's; setter dependencies are too unless a refinement fixed them.
   */
  lemma WrappedDelegates(key: Key, f: Factory, opts: Options, block: Option<Block>, w: World,
                         instance: Value, name: Value, value: Value)
    requires NewWrapped(key, f, opts, block, w).Ok?
    ensures var r := NewWrapped(key, f, opts, block, w).value;
      && Inject(r, w, instance, name, value) == Inject(f, w, instance, name, value)
      && PostInitialize(r, w, instance) == PostInitialize(f, w, instance)
      && (r.staticSetterDeps.None? ==> SetterDependencies(r, instance) == SetterDependencies(f, instance))
  {
  }

  /** The options `{:dependencies => {name => args}}`. */
  function RefineOne(name: Value, args: Value): Options {
    OMap([(Sym("dependencies"), HashV(OMap([(name, args)])))])
  }

  /**
   * Where the source goes wrong: refining a name the wrapped factory does not
   * depend on raises NameError, which a `rescue Wirer::Error` does not catch;
   * the corrected constructor raises the intended `Wirer::Error`.
   */
  lemma WrappedUnknownName(key: Key, f: Factory, name: Value, args: Value, block: Option<Block>, w: World)
    requires !HasKey(ConstructorDependencies(f), name) && !HasKey(SetterDependencies(f, Nil), name)
    requires NormaliseArgOrArgsList(args).Ok?
    ensures NewWrappedAsWritten(key, f, RefineOne(name, args), block, w) == Err(NameError)
    ensures !IsWirerError(NameError)
    ensures NewWrapped(key, f, RefineOne(name, args), block, w) == Err(WirerError)
  {
    var opts := RefineOne(name, args);
    GetSpec(ConstructorDependencies(f), name);
    GetSpec(SetterDependencies(f, Nil), name);
    GetAt(opts, 0);
    assert Opt(opts, "dependencies") == HashV(OMap([(name, args)]));
    assert Keys(opts) == [Sym("dependencies")];
    OptAbsent(opts, "features");
    assert RefinementsOption(opts) == Ok([(name, args)]);
    WirerFamily(NameError);
  }
}
