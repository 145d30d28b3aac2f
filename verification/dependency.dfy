/**
 * Wirer::Dependency: a descriptor of what an argument needs (a class, some
 * features, how many, whether it may be absent), built from a loose argument
 * list, matched against factories, and narrowed by refinement.
 */
module Dependencies {
  import opened Base
  import opened OrderedMaps
  import opened Classes
  import opened Errors
  import opened Values
  import opened FactoryInterface

  type Options = OMap<Value, Value>

  /** The elements of a `:features` value that is an Array, nothing otherwise. */
  function FeatureList(v: Value): seq<Value> {
    if v.Arr? then v.elems else []
  }

  /** `(options[:features] ||= []) << x`: fails on a truthy `:features` that is not an Array. */
  function AppendFeature(opts: Options, x: Value): Result<Options, ErrorClass> {
    var cur := Opt(opts, "features");
    if !Truthy(cur) then Ok(Put(opts, Sym("features"), Arr([x])))
    else if cur.Arr? then Ok(Put(opts, Sym("features"), Arr(cur.elems + [x])))
    else Err(NoMethodError)
  }

  /**
   * Appending a feature fails exactly on a truthy `:features` that is not an
   * Array; otherwise `:features` is the old list with `x` last and every other
   * option is unchanged.
   */
  lemma AppendFeatureSpec(opts: Options, x: Value)
    ensures var r := AppendFeature(opts, x);
      r.Err? <==> Truthy(Opt(opts, "features")) && !Opt(opts, "features").Arr?
    ensures var r := AppendFeature(opts, x);
      r.Ok? ==> Opt(r.value, "features") == Arr(FeatureList(Opt(opts, "features")) + [x])
    ensures var r := AppendFeature(opts, x);
      r.Ok? ==> forall k {:trigger Get(r.value, k)} :: k != Sym("features") ==> Get(r.value, k) == Get(opts, k)
  {
    assert FeatureList(Nil) + [x] == [x];
  }

  /** Appending a feature leaves every other option as it was. */
  lemma AppendFeatureOther(opts: Options, x: Value, name: string)
    requires name != "features"
    ensures var r := AppendFeature(opts, x);
      r.Ok? ==> Opt(r.value, name) == Opt(opts, name)
  {
    var cur := Opt(opts, "features");
    if !Truthy(cur) {
      OptPut(opts, Sym("features"), Arr([x]), name);
    } else if cur.Arr? {
      OptPut(opts, Sym("features"), Arr(cur.elems + [x]), name);
    }
  }

  /** The last argument that is a Module, if any. */
  function LastModule(reqs: seq<Value>): (r: Option<Value>)
    ensures r.Some? ==> r.value in reqs && AsModule(r.value).Some?
    ensures r.None? ==> forall i :: 0 <= i < |reqs| ==> AsModule(reqs[i]).None?
  {
    if |reqs| == 0 then None
    else match LastModule(reqs[1..])
      case Some(m) => Some(m)
      case None => if AsModule(reqs[0]).Some? then Some(reqs[0]) else None
  }

  /** The arguments that are not Modules, in order. */
  function NonModules(reqs: seq<Value>): seq<Value> {
    if |reqs| == 0 then []
    else (if AsModule(reqs[0]).Some? then [] else [reqs[0]]) + NonModules(reqs[1..])
  }

  /**
   * The loop of `normalise_args` over the positional requirements: a Module
   * sets `:class`, anything else is appended to `:features`, which fails only
   * when `:features` already holds a truthy value that is not an Array.
   */
  function Absorb(opts: Options, reqs: seq<Value>): (r: Result<Options, ErrorClass>)
    ensures r.Err? <==> NonModules(reqs) != [] && Truthy(Opt(opts, "features")) && !Opt(opts, "features").Arr?
    decreases |reqs|
  {
    if |reqs| == 0 then Ok(opts)
    else
      var x := reqs[0];
      if AsModule(x).Some? then OptPut(opts, Sym("class"), x, "features"); Absorb(Put(opts, Sym("class"), x), reqs[1..])
      else
        AppendFeatureSpec(opts, x);
        match AppendFeature(opts, x)
        case Err(e) => Err(e)
        case Ok(o) => Absorb(o, reqs[1..])
  }

  /** After the loop, `:class` is the last Module argument, or what the options held. */
  lemma {:induction false} AbsorbClass(opts: Options, reqs: seq<Value>)
    ensures Absorb(opts, reqs).Ok? ==>
      Opt(Absorb(opts, reqs).value, "class") == if LastModule(reqs).Some? then LastModule(reqs).value else Opt(opts, "class")
    decreases |reqs|
  {
    if |reqs| > 0 {
      var x := reqs[0];
      if AsModule(x).Some? {
        var o := Put(opts, Sym("class"), x);
        assert Opt(o, "class") == x;
        AbsorbClass(o, reqs[1..]);
      } else if AppendFeature(opts, x).Ok? {
        AppendFeatureSpec(opts, x);
        var o := AppendFeature(opts, x).value;
        assert Opt(o, "class") == Opt(opts, "class");
        AbsorbClass(o, reqs[1..]);
      }
    }
  }

  /** After the loop, `:features` is the existing list followed by the non-Module arguments in order. */
  lemma {:induction false} AbsorbFeatures(opts: Options, reqs: seq<Value>)
    ensures Absorb(opts, reqs).Ok? && NonModules(reqs) == [] ==>
      Opt(Absorb(opts, reqs).value, "features") == Opt(opts, "features")
    ensures Absorb(opts, reqs).Ok? && NonModules(reqs) != [] ==>
      Opt(Absorb(opts, reqs).value, "features") == Arr(FeatureList(Opt(opts, "features")) + NonModules(reqs))
    decreases |reqs|
  {
    if |reqs| > 0 {
      var x := reqs[0];
      var rest := reqs[1..];
      if AsModule(x).Some? {
        var o := Put(opts, Sym("class"), x);
        assert Absorb(opts, reqs) == Absorb(o, rest);
        assert NonModules(reqs) == NonModules(rest);
        ClassKeepsFeatures(opts, x);
        AbsorbFeatures(o, rest);
      } else if AppendFeature(opts, x).Ok? {
        AppendFeatureSpec(opts, x);
        var o := AppendFeature(opts, x).value;
        assert Absorb(opts, reqs) == Absorb(o, rest);
        assert NonModules(reqs) == [x] + NonModules(rest);
        AbsorbFeatures(o, rest);
        FeaturesAfterAppend(FeatureList(Opt(opts, "features")), x, NonModules(rest));
      }
    }
  }

  /** Setting `:class` leaves `:features` alone. */
  lemma ClassKeepsFeatures(opts: Options, x: Value)
    ensures Opt(Put(opts, Sym("class"), x), "features") == Opt(opts, "features")
  {
    assert Sym("class") != Sym("features");
  }

  /** The feature list after appending `x` and then the rest. */
  lemma FeaturesAfterAppend(base: seq<Value>, x: Value, more: seq<Value>)
    ensures FeatureList(Arr(base + [x])) + more == base + ([x] + more)
    ensures more == [] ==> [x] + more == [x]
  {
  }

  /** `normalise_args` leaves every option other than `:class` and `:features` as given. */
  lemma {:induction false} AbsorbKeepsOtherOptions(opts: Options, reqs: seq<Value>, k: Value)
    requires k != Sym("class") && k != Sym("features")
    ensures Absorb(opts, reqs).Ok? ==> Get(Absorb(opts, reqs).value, k) == Get(opts, k)
    decreases |reqs|
  {
    if |reqs| > 0 {
      var x := reqs[0];
      if AsModule(x).Some? {
        AbsorbKeepsOtherOptions(Put(opts, Sym("class"), x), reqs[1..], k);
      } else if AppendFeature(opts, x).Ok? {
        AppendFeatureSpec(opts, x);
        AbsorbKeepsOtherOptions(AppendFeature(opts, x).value, reqs[1..], k);
      }
    }
  }

  /** A trailing Hash among `normalise_args`' arguments is the options; the rest are requirements. */
  predicate HasOptionsHash(args: seq<Value>) {
    |args| > 0 && args[|args| - 1].HashV?
  }

  function GivenOptions(args: seq<Value>): Options {
    if HasOptionsHash(args) then args[|args| - 1].h else Empty()
  }

  function Requirements(args: seq<Value>): seq<Value> {
    if HasOptionsHash(args) then args[..|args| - 1] else args
  }

  /**
   * `normalise_args(*args)`: the trailing Hash (or `{}`) with `:class` set to
   * the last Module argument and every other argument appended to `:features`
   * in order.
   */
  function NormaliseArgs(args: seq<Value>): (r: Result<Options, ErrorClass>)
    ensures var opts, reqs := GivenOptions(args), Requirements(args);
      && (r.Err? <==> NonModules(reqs) != [] && Truthy(Opt(opts, "features")) && !Opt(opts, "features").Arr?)
      && (r.Ok? ==> Opt(r.value, "class") == if LastModule(reqs).Some? then LastModule(reqs).value else Opt(opts, "class"))
      && (r.Ok? && NonModules(reqs) != [] ==> Opt(r.value, "features") == Arr(FeatureList(Opt(opts, "features")) + NonModules(reqs)))
      && (r.Ok? && NonModules(reqs) == [] ==> Opt(r.value, "features") == Opt(opts, "features"))
  {
    AbsorbClass(GivenOptions(args), Requirements(args));
    AbsorbFeatures(GivenOptions(args), Requirements(args));
    Absorb(GivenOptions(args), Requirements(args))
  }

  /**
   * `normalise_arg_or_args_list`: a Hash is already the options, an Array is an
   * argument list, and a single value is a one-element list: a lone Module is
   * `{:class => it}` and anything else `{:features => [it]}`.
   */
  function NormaliseArgOrArgsList(v: Value): (r: Result<Options, ErrorClass>)
    ensures v.HashV? ==> r == Ok(v.h)
    ensures !v.HashV? && !v.Arr? && AsModule(v).Some? ==> r == Ok(OMap([(Sym("class"), v)]))
    ensures !v.HashV? && !v.Arr? && AsModule(v).None? ==> r == Ok(OMap([(Sym("features"), Arr([v]))]))
  {
    match v
    case HashV(h) => Ok(h)
    case Arr(xs) => NormaliseArgs(xs)
    case _ =>
      SingleArgOptions(v);
      NormaliseArgs([v])
  }

  /** A single argument that is not a list: a Module sets `:class`, anything else is the one feature. */
  lemma SingleArgOptions(v: Value)
    requires !v.HashV?
    ensures AsModule(v).Some? ==> NormaliseArgs([v]) == Ok(OMap([(Sym("class"), v)]))
    ensures AsModule(v).None? ==> NormaliseArgs([v]) == Ok(OMap([(Sym("features"), Arr([v]))]))
  {
    assert GivenOptions([v]) == Empty() && Requirements([v]) == [v];
    assert [v][1..] == [];
    if AsModule(v).Some? {
      PutEmpty(Sym("class"), v);
      assert Absorb(Empty(), [v]) == Absorb(Put(Empty(), Sym("class"), v), []);
    } else {
      PutEmpty(Sym("features"), Arr([v]));
      assert Opt(Empty(), "features") == Nil;
      assert AppendFeature(Empty(), v) == Ok(Put(Empty(), Sym("features"), Arr([v])));
      assert Absorb(Empty(), [v]) == Absorb(Put(Empty(), Sym("features"), Arr([v])), []);
    }
  }

  /** The `:class` value a descriptor is built from: `:class`, or `:module` when that is falsy. */
  function ClassOption(opts: Options): Value {
    Or(Opt(opts, "class"), Opt(opts, "module"))
  }

  /**
   * `Dependency.new(options)`. The handle flag is read from `:factory`; the
   * flags default to false.
   */
  function NewDependency(opts: Options): Result<Dependency, ErrorClass> {
    var c := ClassOption(opts);
    var cls: Result<ClassReq, ErrorClass> :=
      if AsModule(c).Some? then Ok(Required(AsModule(c).value))
      else if c.Str? then Ok(Pending(c.s))
      else if c == Nil then Ok(NoClass)
      else Err(ArgumentError);
    match cls
    case Err(e) => Err(e)
    case Ok(req) =>
      Ok(Dependency(req, Opt(opts, "features"), Truthy(Opt(opts, "multiple")),
                    Truthy(Opt(opts, "optional")), Truthy(Opt(opts, "factory"))))
  }

  /**
   * What `Dependency.new` makes of its options: a Module, a class name or
   * nothing as the class requirement (an ArgumentError for anything else),
   * the features as given, and the flags from the truthiness of their options.
   */
  lemma NewDependencySpec(opts: Options)
    ensures var r, c := NewDependency(opts), ClassOption(opts);
      && (r.Err? <==> AsModule(c).None? && !c.Str? && c != Nil)
      && (r.Err? ==> r.error == ArgumentError)
      && (r.Ok? && AsModule(c).Some? ==> r.value.cls == Required(AsModule(c).value))
      && (r.Ok? && c.Str? ==> r.value.cls == Pending(c.s))
      && (r.Ok? && c == Nil ==> r.value.cls == NoClass)
    ensures var r := NewDependency(opts);
      && (r.Ok? ==> r.value.features == Opt(opts, "features"))
      && (r.Ok? ==> (r.value.multiple <==> Truthy(Opt(opts, "multiple"))))
      && (r.Ok? ==> (r.value.optional <==> Truthy(Opt(opts, "optional"))))
      && (r.Ok? ==> (r.value.handle <==> Truthy(Opt(opts, "factory"))))
      && (r.Ok? && !HasKey(opts, Sym("multiple")) ==> !r.value.multiple)
      && (r.Ok? && !HasKey(opts, Sym("optional")) ==> !r.value.optional)
  {
    if !HasKey(opts, Sym("multiple")) {
      OptAbsent(opts, "multiple");
    }
    if !HasKey(opts, Sym("optional")) {
      OptAbsent(opts, "optional");
    }
  }

  /** `Dependency.new_from_args(*args)`. */
  function NewFromArgs(args: seq<Value>): Result<Dependency, ErrorClass> {
    match NormaliseArgs(args)
    case Err(e) => Err(e)
    case Ok(opts) => NewDependency(opts)
  }

  /** `Dependency.new_from_arg_or_args_list(v)`. */
  function NewFromArgOrArgsList(v: Value): Result<Dependency, ErrorClass> {
    match NormaliseArgOrArgsList(v)
    case Err(e) => Err(e)
    case Ok(opts) => NewDependency(opts)
  }

  /**
   * The common DSL shape `dependency :name, SomeClass, :feature, ...` without
   * an options hash: the last Module is the required class, the other
   * arguments are the required features in order, and it is single and
   * mandatory.
   */
  lemma DescriptorFromPlainArgs(args: seq<Value>)
    requires !HasOptionsHash(args)
    ensures NewFromArgs(args).Ok?
    ensures var d := NewFromArgs(args).value;
      && (d.cls == if LastModule(args).Some? then Required(AsModule(LastModule(args).value).value) else NoClass)
      && (d.features == if NonModules(args) == [] then Nil else Arr(NonModules(args)))
      && !d.multiple && !d.optional && !d.handle
  {
    PlainArgsOptions(args);
    NewDependencySpec(NormaliseArgs(args).value);
  }

  /** The options `normalise_args` makes from an argument list without a trailing Hash. */
  lemma PlainArgsOptions(args: seq<Value>)
    requires !HasOptionsHash(args)
    ensures NormaliseArgs(args).Ok?
    ensures var opts := NormaliseArgs(args).value;
      && Opt(opts, "module") == Nil && Opt(opts, "multiple") == Nil
      && Opt(opts, "optional") == Nil && Opt(opts, "factory") == Nil
      && Opt(opts, "class") == (if LastModule(args).Some? then LastModule(args).value else Nil)
      && Opt(opts, "features") == (if NonModules(args) == [] then Nil else Arr(NonModules(args)))
  {
    PlainArgsClassAndFeatures(args);
    PlainArgsOptionUnset(args, Sym("module"));
    PlainArgsOptionUnset(args, Sym("multiple"));
    PlainArgsOptionUnset(args, Sym("optional"));
    PlainArgsOptionUnset(args, Sym("factory"));
  }

  /** Without an options hash, the last Module is the class and the other arguments the features. */
  lemma PlainArgsClassAndFeatures(args: seq<Value>)
    requires !HasOptionsHash(args)
    ensures NormaliseArgs(args).Ok?
    ensures var opts := NormaliseArgs(args).value;
      && Opt(opts, "class") == (if LastModule(args).Some? then LastModule(args).value else Nil)
      && Opt(opts, "features") == (if NonModules(args) == [] then Nil else Arr(NonModules(args)))
  {
    assert GivenOptions(args) == Empty() && Requirements(args) == args;
    assert Opt(Empty(), "features") == Nil && Opt(Empty(), "class") == Nil;
  }

  /** Without an options hash, nothing but `:class` and `:features` is ever set. */
  lemma PlainArgsOptionUnset(args: seq<Value>, k: Value)
    requires !HasOptionsHash(args)
    requires k != Sym("class") && k != Sym("features")
    ensures NormaliseArgs(args).Ok? ==> Get(NormaliseArgs(args).value, k) == None
  {
    assert GivenOptions(args) == Empty() && Requirements(args) == args;
    AbsorbKeepsOtherOptions(Empty(), args, k);
  }

  /**
   * `required_class`, with the resolution cache made explicit: a pending name is
   * looked up in the namespace the first time and the answer stored in the
   * returned descriptor; a name that does not resolve raises NameError and
   * caches nothing.
   */
  function RequiredClass(d: Dependency, ns: map<string, Mod>): (r: (Result<Option<Mod>, ErrorClass>, Dependency))
    ensures r.1.features == d.features && r.1.multiple == d.multiple && r.1.optional == d.optional && r.1.handle == d.handle
    ensures r.0.Ok? ==> r.1.cls == if r.0.value.Some? then Required(r.0.value.value) else NoClass
    ensures r.0.Err? <==> d.cls.Pending? && d.cls.name !in ns
    ensures r.0.Err? ==> r.0.error == NameError && r.1 == d
    ensures d.cls.Pending? && d.cls.name in ns ==> r.0 == Ok(Some(ns[d.cls.name]))
  {
    match d.cls
    case NoClass => (Ok(None), d)
    case Required(m) => (Ok(Some(m)), d)
    case Pending(name) =>
      if name in ns then (Ok(Some(ns[name])), d.(cls := Required(ns[name]))) else (Err(NameError), d)
  }

  /** Once resolved, the class no longer depends on what the namespace holds. */
  lemma ResolvedOnce(d: Dependency, ns: map<string, Mod>, later: map<string, Mod>)
    requires RequiredClass(d, ns).0.Ok?
    ensures RequiredClass(RequiredClass(d, ns).1, later) == RequiredClass(d, ns)
  {
  }

  /** The class a descriptor requires, resolved against a fixed namespace. */
  function Resolved(d: Dependency, ns: map<string, Mod>): Result<Option<Mod>, ErrorClass> {
    RequiredClass(d, ns).0
  }

  /** `xs.all? {|x| provided.include?(x)}`. */
  function AllProvided(xs: seq<Value>, provided: seq<Value>): (r: bool)
    ensures r <==> forall i :: 0 <= i < |xs| ==> xs[i] in provided
  {
    |xs| == 0 || (xs[0] in provided && AllProvided(xs[1..], provided))
  }

  /** The factory's class is at or below the required class, if one is required. */
  predicate ClassAccepted(w: World, rc: Option<Mod>, f: Factory) {
    rc.None? || Le(w.h, ProvidesClass(f), rc.value.id)
  }

  /** Every required feature is among the factory's provided features. */
  predicate FeaturesAccepted(required: Value, f: Factory) {
    !Truthy(required) || (Elements(required).Some? && forall x :: x in Elements(required).value ==> x in ProvidesFeatures(f))
  }

  /**
   * `dependency === factory`: the class requirement (resolving a pending
   * name, which can raise NameError) and then the feature requirement (which
   * raises NoMethodError when the features value cannot be enumerated).
   */
  function Satisfies(d: Dependency, f: Factory, w: World): (r: Result<bool, ErrorClass>)
    ensures r == Ok(true) <==>
      Resolved(d, w.ns).Ok? && ClassAccepted(w, Resolved(d, w.ns).value, f) && FeaturesAccepted(d.features, f)
    ensures r.Err? <==>
      Resolved(d, w.ns).Err? ||
      (ClassAccepted(w, Resolved(d, w.ns).value, f) && Truthy(d.features) && Elements(d.features).None?)
    ensures r.Err? ==> r.error == (if Resolved(d, w.ns).Err? then NameError else NoMethodError)
  {
    match Resolved(d, w.ns)
    case Err(e) => Err(e)
    case Ok(rc) =>
      if !ClassAccepted(w, rc, f) then Ok(false)
      else if !Truthy(d.features) then Ok(true)
      else match Elements(d.features)
        case None => Err(NoMethodError)
        case Some(xs) => Ok(AllProvided(xs, ProvidesFeatures(f)))
  }

  /** `available.select {|f| dependency === f}`, stopping at the first error. */
  function Candidates(d: Dependency, fs: seq<Factory>, w: World): Result<seq<Factory>, ErrorClass> {
    if |fs| == 0 then Ok([])
    else
      match Satisfies(d, fs[0], w)
      case Err(e) => Err(e)
      case Ok(b) =>
        match Candidates(d, fs[1..], w)
        case Err(e) => Err(e)
        case Ok(cs) => if b then Ok([fs[0]] + cs) else Ok(cs)
  }

  /**
   * The candidates are the matching factories, in registry order; the
   * selection succeeds exactly when no factory's check raises, and otherwise
   * fails with the error of one that does.
   */
  lemma {:induction false} CandidatesSpec(d: Dependency, fs: seq<Factory>, w: World)
    ensures var r := Candidates(d, fs, w);
      r.Ok? <==> forall i :: 0 <= i < |fs| ==> Satisfies(d, fs[i], w).Ok?
    ensures var r := Candidates(d, fs, w);
      r.Ok? ==> IsSubsequence(r.value, fs)
    ensures var r := Candidates(d, fs, w);
      r.Ok? ==> forall g :: g in r.value <==> g in fs && Satisfies(d, g, w) == Ok(true)
    ensures var r := Candidates(d, fs, w);
      r.Err? ==> exists i :: 0 <= i < |fs| && Satisfies(d, fs[i], w) == Err(r.error)
  {
    if |fs| > 0 {
      var r := Candidates(d, fs, w);
      var tail := Candidates(d, fs[1..], w);
      CandidatesSpec(d, fs[1..], w);
      assert forall g :: g in fs <==> g == fs[0] || g in fs[1..] by {
        assert fs == [fs[0]] + fs[1..];
      }
      assert forall i :: 0 < i < |fs| ==> fs[i] == fs[1..][i - 1];
      if r.Err? && Satisfies(d, fs[0], w).Ok? {
        var i :| 0 <= i < |fs[1..]| && Satisfies(d, fs[1..][i], w) == Err(r.error);
        assert fs[i + 1] == fs[1..][i];
      }
      if r.Ok? && Satisfies(d, fs[0], w) == Ok(true) {
        assert ([fs[0]] + tail.value)[1..] == tail.value;
      }
    }
  }

  /** Two satisfying factories at different positions leave at least two candidates. */
  lemma {:induction false} TwoCandidates(d: Dependency, fs: seq<Factory>, w: World, i: nat, j: nat)
    requires i < j < |fs|
    requires Candidates(d, fs, w).Ok?
    requires Satisfies(d, fs[i], w) == Ok(true) && Satisfies(d, fs[j], w) == Ok(true)
    ensures |Candidates(d, fs, w).value| >= 2
  {
    CandidatesStep(d, fs, w);
    assert fs[1..][j - 1] == fs[j];
    if i > 0 {
      assert fs[1..][i - 1] == fs[i];
      TwoCandidates(d, fs[1..], w, i - 1, j - 1);
    } else {
      OneCandidate(d, fs[1..], w, j - 1);
    }
  }

  /** A satisfying factory leaves at least one candidate. */
  lemma {:induction false} OneCandidate(d: Dependency, fs: seq<Factory>, w: World, j: nat)
    requires j < |fs| && Candidates(d, fs, w).Ok? && Satisfies(d, fs[j], w) == Ok(true)
    ensures |Candidates(d, fs, w).value| >= 1
  {
    CandidatesStep(d, fs, w);
    if j > 0 {
      assert fs[1..][j - 1] == fs[j];
      OneCandidate(d, fs[1..], w, j - 1);
    }
  }

  /** The candidates among a non-empty list: the first factory if it matches, then those among the rest. */
  lemma CandidatesStep(d: Dependency, fs: seq<Factory>, w: World)
    requires |fs| > 0 && Candidates(d, fs, w).Ok?
    ensures Candidates(d, fs[1..], w).Ok?
    ensures Candidates(d, fs, w).value ==
      (if Satisfies(d, fs[0], w) == Ok(true) then [fs[0]] else []) + Candidates(d, fs[1..], w).value
  {
    assert fs[0] == fs[0];
  }

  /** The result of `match_factories`: a list for a multiple dependency, at most one factory otherwise. */
  datatype Match = Many(all: seq<Factory>) | One(only: Option<Factory>)

  /**
   * `match_factories(available)`, without the per-candidate callback (the
   * construction engine applies it to the result). The cardinality errors
   * are decided on the candidate list alone.
   */
  function MatchFactories(d: Dependency, fs: seq<Factory>, w: World): (r: Result<Match, ErrorClass>)
    ensures Candidates(d, fs, w).Err? ==> r == Err(Candidates(d, fs, w).error)
    ensures Candidates(d, fs, w).Ok? ==> var cs := Candidates(d, fs, w).value;
      && (r.Err? <==> (!d.multiple && |cs| > 1) || (!d.optional && |cs| == 0))
      && (r.Err? ==> r.error == DependencyFindingError)
      && (r.Ok? && d.multiple ==> r.value == Many(cs))
      && (r.Ok? && !d.multiple ==> r.value.One? && (r.value.only.Some? <==> |cs| == 1))
      && (r.Ok? && !d.multiple && r.value.only.Some? ==> r.value.only.value == cs[0])
  {
    match Candidates(d, fs, w)
    case Err(e) => Err(e)
    case Ok(cs) =>
      if !d.multiple && |cs| > 1 then Err(DependencyFindingError)
      else if !d.optional && |cs| == 0 then Err(DependencyFindingError)
      else if d.multiple then Ok(Many(cs))
      else Ok(One(if |cs| == 0 then None else Some(cs[0])))
  }

  /** A single dependency with two matching factories is an error, even when it is optional. */
  lemma AmbiguousSingle(d: Dependency, fs: seq<Factory>, w: World, i: nat, j: nat)
    requires Candidates(d, fs, w).Ok? && !d.multiple
    requires i < j < |fs| && Satisfies(d, fs[i], w) == Ok(true) && Satisfies(d, fs[j], w) == Ok(true)
    ensures MatchFactories(d, fs, w) == Err(DependencyFindingError)
  {
    TwoCandidates(d, fs, w, i, j);
  }

  /**
   * With no matching factory, a mandatory dependency is an error, an optional
   * single one is nil and an optional multiple one is the empty list.
   */
  lemma NoMatch(d: Dependency, fs: seq<Factory>, w: World)
    requires forall g :: g in fs ==> Satisfies(d, g, w) == Ok(false)
    ensures !d.optional ==> MatchFactories(d, fs, w) == Err(DependencyFindingError)
    ensures d.optional && !d.multiple ==> MatchFactories(d, fs, w) == Ok(One(None))
    ensures d.optional && d.multiple ==> MatchFactories(d, fs, w) == Ok(Many([]))
  {
    CandidatesNone(d, fs, w);
  }

  /** When every factory is rejected without error, there are no candidates. */
  lemma {:induction false} CandidatesNone(d: Dependency, fs: seq<Factory>, w: World)
    requires forall g :: g in fs ==> Satisfies(d, g, w) == Ok(false)
    ensures Candidates(d, fs, w) == Ok([])
  {
    if |fs| > 0 {
      assert fs[0] in fs;
      assert forall g :: g in fs[1..] ==> g in fs;
      CandidatesNone(d, fs[1..], w);
    }
  }

  /** The factory a single dependency settles on is a match, and the only one in the registry. */
  lemma SingleMatchUnique(d: Dependency, fs: seq<Factory>, w: World, h: Factory)
    requires !d.multiple && MatchFactories(d, fs, w).Ok? && MatchFactories(d, fs, w).value.only.Some?
    requires h in fs && Satisfies(d, h, w) == Ok(true)
    ensures var g := MatchFactories(d, fs, w).value.only.value;
      g in fs && Satisfies(d, g, w) == Ok(true) && h == g
  {
    CandidatesSpec(d, fs, w);
    var cs := Candidates(d, fs, w).value;
    assert |cs| == 1 && cs[0] in cs;
    assert h in cs;
  }

  /** The error Ruby raises when `v <= mod` is asked of a value that is not a Module. */
  function ComparisonError(v: Value): ErrorClass {
    match v
    case Str(_) => ArgumentError
    case Sym(_) => ArgumentError
    case Int(_) => ArgumentError
    case HashV(_) => TypeError
    case _ => NoMethodError
  }

  /**
   * The `:class` entry of refined options: the existing requirement when no new
   * class is given, otherwise the new class, which must be at or below the
   * existing one (a RuntimeError otherwise).
   */
  function RefinedClass(current: Option<Mod>, opts: Options, h: Hierarchy): (r: Result<Value, ErrorClass>)
    ensures !Truthy(Opt(opts, "class")) ==> r == Ok(if current.Some? then ModV(current.value) else Nil)
    ensures Truthy(Opt(opts, "class")) && current.None? ==> r == Ok(Opt(opts, "class"))
    ensures Truthy(Opt(opts, "class")) && current.Some? && AsModule(Opt(opts, "class")).Some? ==>
      (r.Ok? <==> Le(h, AsModule(Opt(opts, "class")).value.id, current.value.id))
    ensures r.Ok? && Truthy(Opt(opts, "class")) ==> r.value == Opt(opts, "class")
    ensures r.Err? && AsModule(Opt(opts, "class")).Some? ==> r.error == RuntimeError
  {
    var nc := Opt(opts, "class");
    if !Truthy(nc) then Ok(if current.Some? then ModV(current.value) else Nil)
    else if current.None? then Ok(nc)
    else match AsModule(nc)
      case None => Err(ComparisonError(nc))
      case Some(m) => if Le(h, m.id, current.value.id) then Ok(nc) else Err(RuntimeError)
  }

  /**
   * `(existing || []) | extra`: the refined features, existing ones first, no
   * duplicates. An Integer refuses to be or'ed with anything but an Integer
   * (TypeError); other non-Arrays have no `|` (NoMethodError).
   */
  function UnionFeatures(existing: Value, extra: Value): (r: Result<Value, ErrorClass>)
    ensures r.Ok? ==> r.value.Arr? && NoDuplicates(r.value.elems)
    ensures r.Ok? ==> IsPrefix(Dedup(FeatureList(existing)), r.value.elems)
    ensures r.Ok? ==> forall x :: x in r.value.elems <==> x in FeatureList(existing) || x in FeatureList(extra)
    ensures r.Ok? <==> (!Truthy(existing) || existing.Arr?) && extra.Arr?
    ensures existing.Int? ==> r == Err(TypeError)
    ensures Truthy(existing) && !existing.Arr? && !existing.Int? ==> r == Err(NoMethodError)
    ensures (!Truthy(existing) || existing.Arr?) && !extra.Arr? ==> r == Err(TypeError)
  {
    var base := if Truthy(existing) then existing else Arr([]);
    if base.Int? then Err(TypeError)
    else if !base.Arr? then Err(NoMethodError)
    else if !extra.Arr? then Err(TypeError)
    else Ok(Arr(Union(base.elems, extra.elems)))
  }

  /** `existing | extra` as the source evaluates it: `nil | x` and `false | x` are `true`. */
  function UnionFeaturesAsWritten(existing: Value, extra: Value): (r: Result<Value, ErrorClass>)
    requires Truthy(extra)
    ensures !Truthy(existing) ==> r == Ok(Bool(true))
    ensures existing.Arr? ==> r == UnionFeatures(existing, extra)
    ensures existing.Int? ==> r == Err(TypeError)
  {
    if !Truthy(existing) || existing == Bool(true) then Ok(Bool(true))
    else if existing.Int? then Err(TypeError)
    else if !existing.Arr? then Err(NoMethodError)
    else UnionFeatures(existing, extra)
  }

  /** The options hash `with_options` hands to `Dependency.new`. */
  function RefinedOptions(d: Dependency, cls: Value, features: Value): Options {
    OMap([(Sym("multiple"), Bool(d.multiple)), (Sym("optional"), Bool(d.optional)),
          (Sym("class"), cls), (Sym("features"), features)])
  }

  /** What `Dependency.new` reads back from the refined options. */
  lemma RefinedOptionsLookup(d: Dependency, cls: Value, features: Value)
    ensures var o := RefinedOptions(d, cls, features);
      && Opt(o, "multiple") == Bool(d.multiple) && Opt(o, "optional") == Bool(d.optional)
      && Opt(o, "class") == cls && Opt(o, "features") == features
      && Opt(o, "module") == Nil && Opt(o, "factory") == Nil
  {
    RefinedEntry(d, cls, features, 0, "multiple");
    RefinedEntry(d, cls, features, 1, "optional");
    RefinedEntry(d, cls, features, 2, "class");
    RefinedEntry(d, cls, features, 3, "features");
    RefinedUnset(d, cls, features, "module");
    RefinedUnset(d, cls, features, "factory");
  }

  /** One of the four options `with_options` sets, read back. */
  lemma RefinedEntry(d: Dependency, cls: Value, features: Value, i: nat, name: string)
    requires i < 4 && RefinedOptions(d, cls, features).entries[i].0 == Sym(name)
    ensures Opt(RefinedOptions(d, cls, features), name) == RefinedOptions(d, cls, features).entries[i].1
  {
    var o := RefinedOptions(d, cls, features);
    assert forall j :: 0 <= j < i ==> o.entries[j].0 != o.entries[i].0;
    OptFirst(o, i, name);
  }

  /** An option `with_options` does not set reads as nil. */
  lemma RefinedUnset(d: Dependency, cls: Value, features: Value, name: string)
    requires name !in ["multiple", "optional", "class", "features"]
    ensures Opt(RefinedOptions(d, cls, features), name) == Nil
  {
    var o := RefinedOptions(d, cls, features);
    assert forall j :: 0 <= j < |o.entries| ==> o.entries[j].0 != Sym(name) by {
      assert forall j :: 0 <= j < |o.entries| ==> o.entries[j].0.Sym? && o.entries[j].0.s in ["multiple", "optional", "class", "features"];
    }
    OptNone(o, name);
  }

  /** The descriptor requirement a `:class` option value stands for. */
  function ClassReqOf(v: Value): ClassReq {
    if AsModule(v).Some? then Required(AsModule(v).value) else if v.Str? then Pending(v.s) else NoClass
  }

  /** `with_options(options)`, with the feature union either corrected or as the source writes it. */
  function Refine(d: Dependency, opts: Options, w: World, asWritten: bool): Result<Dependency, ErrorClass> {
    match Resolved(d, w.ns)
    case Err(e) => Err(e)
    case Ok(current) =>
      match RefinedClass(current, opts, w.h)
      case Err(e) => Err(e)
      case Ok(cls) =>
        match RefinedFeatures(d.features, Opt(opts, "features"), asWritten)
        case Err(e) => Err(e)
        case Ok(fv) => NewDependency(RefinedOptions(d, cls, fv))
  }

  /**
   * What `with_options` gives: the existing class requirement resolved and
   * refined, the flags kept and no handle, the features kept or united with
   * the new ones, and the first error met otherwise.
   */
  lemma RefineSpec(d: Dependency, opts: Options, w: World, asWritten: bool)
    ensures var r := Refine(d, opts, w, asWritten);
      r.Ok? ==> Resolved(d, w.ns).Ok? && RefinedClass(Resolved(d, w.ns).value, opts, w.h).Ok?
    ensures var r := Refine(d, opts, w, asWritten);
      r.Ok? ==> r.value.cls == ClassReqOf(RefinedClass(Resolved(d, w.ns).value, opts, w.h).value)
    ensures var r := Refine(d, opts, w, asWritten);
      r.Ok? ==> r.value.multiple == d.multiple && r.value.optional == d.optional && !r.value.handle
    ensures var r := Refine(d, opts, w, asWritten);
      r.Ok? && !Truthy(Opt(opts, "features")) ==> r.value.features == d.features
    ensures var r := Refine(d, opts, w, asWritten);
      r.Ok? && Truthy(Opt(opts, "features")) && asWritten ==>
      UnionFeaturesAsWritten(d.features, Opt(opts, "features")) == Ok(r.value.features)
    ensures var r := Refine(d, opts, w, asWritten);
      r.Ok? && Truthy(Opt(opts, "features")) && !asWritten ==>
      UnionFeatures(d.features, Opt(opts, "features")) == Ok(r.value.features)
    ensures Resolved(d, w.ns).Err? ==> Refine(d, opts, w, asWritten) == Err(Resolved(d, w.ns).error)
    ensures Resolved(d, w.ns).Ok? && RefinedClass(Resolved(d, w.ns).value, opts, w.h).Err? ==>
      Refine(d, opts, w, asWritten) == Err(RefinedClass(Resolved(d, w.ns).value, opts, w.h).error)
  {
    if Resolved(d, w.ns).Ok? {
      var current := Resolved(d, w.ns).value;
      var rc := RefinedClass(current, opts, w.h);
      var rf := RefinedFeatures(d.features, Opt(opts, "features"), asWritten);
      if rc.Ok? && rf.Ok? {
        RefineUnfold(d, opts, w, asWritten, current, rc.value, rf.value);
        RefinedOptionsLookup(d, rc.value, rf.value);
      }
    }
  }

  /** The `:features` entry of refined options: the existing value when none are added, else the union. */
  function RefinedFeatures(existing: Value, extra: Value, asWritten: bool): Result<Value, ErrorClass> {
    if !Truthy(extra) then Ok(existing)
    else if asWritten then UnionFeaturesAsWritten(existing, extra)
    else UnionFeatures(existing, extra)
  }

  /** `with_options` once its class and features are settled: a descriptor built from the refined options. */
  lemma RefineUnfold(d: Dependency, opts: Options, w: World, asWritten: bool, current: Option<Mod>, cls: Value, fv: Value)
    requires Resolved(d, w.ns) == Ok(current)
    requires RefinedClass(current, opts, w.h) == Ok(cls)
    requires RefinedFeatures(d.features, Opt(opts, "features"), asWritten) == Ok(fv)
    ensures Refine(d, opts, w, asWritten) == NewDependency(RefinedOptions(d, cls, fv))
  {
  }

  /** A descriptor built from refined options with a Module as its class. */
  lemma RefinedModuleDependency(d: Dependency, cls: Value, fv: Value)
    requires AsModule(cls).Some?
    ensures NewDependency(RefinedOptions(d, cls, fv)) == Ok(Dependency(Required(AsModule(cls).value), fv, d.multiple, d.optional, false))
  {
    RefinedOptionsLookup(d, cls, fv);
    NewDependencySpec(RefinedOptions(d, cls, fv));
  }

  /**
   * `with_options(options)`, reading an absent existing feature list as empty.
   * The result keeps the multiple and optional flags, never loses the class
   * requirement (it can only move down the hierarchy), and keeps every
   * existing feature, first and in order, with the new ones after.
   */
  function WithOptions(d: Dependency, opts: Options, w: World): (r: Result<Dependency, ErrorClass>)
    ensures r.Ok? ==> r.value.multiple == d.multiple && r.value.optional == d.optional
    ensures r.Ok? && Resolved(d, w.ns) == Ok(None) && !Truthy(Opt(opts, "class")) ==> r.value.cls == NoClass
    ensures r.Ok? && Resolved(d, w.ns).Ok? && Resolved(d, w.ns).value.Some? ==>
      r.value.cls.Required? && Le(w.h, r.value.cls.m.id, Resolved(d, w.ns).value.value.id)
    ensures r.Ok? && !Truthy(Opt(opts, "features")) ==> r.value.features == d.features
    ensures r.Ok? && Truthy(Opt(opts, "features")) ==>
      && r.value.features.Arr?
      && IsPrefix(Dedup(FeatureList(d.features)), r.value.features.elems)
      && (forall x :: x in r.value.features.elems <==> x in FeatureList(d.features) || x in FeatureList(Opt(opts, "features")))
    ensures Resolved(d, w.ns).Err? ==> r == Err(NameError)
    ensures
      (Resolved(d, w.ns).Ok? && Resolved(d, w.ns).value.Some? && AsModule(Opt(opts, "class")).Some? &&
       !Le(w.h, AsModule(Opt(opts, "class")).value.id, Resolved(d, w.ns).value.value.id))
      ==> r == Err(RuntimeError)
  {
    RefineSpec(d, opts, w, false);
    Refine(d, opts, w, false)
  }

  /** `with_options` exactly as written, where an absent feature list turns into `true`. */
  function WithOptionsAsWritten(d: Dependency, opts: Options, w: World): (r: Result<Dependency, ErrorClass>)
    ensures r.Ok? && !Truthy(d.features) && Truthy(Opt(opts, "features")) ==> r.value.features == Bool(true)
    ensures d.features.Arr? || !Truthy(Opt(opts, "features")) ==> r == WithOptions(d, opts, w)
  {
    RefineSpec(d, opts, w, true);
    RefineSpec(d, opts, w, false);
    Refine(d, opts, w, true)
  }

  /**
   * Refinement only narrows: over a transitively closed hierarchy, every
   * factory the refined descriptor accepts was accepted by the original.
   */
  lemma RefinementNarrows(d: Dependency, opts: Options, w: World, f: Factory)
    requires WellFormed(w.h)
    requires WithOptions(d, opts, w).Ok?
    requires Satisfies(WithOptions(d, opts, w).value, f, w) == Ok(true)
    ensures Satisfies(d, f, w) == Ok(true)
  {
    var d' := WithOptions(d, opts, w).value;
    var rc := Resolved(d, w.ns).value;
    var rc' := Resolved(d', w.ns).value;
    if rc.Some? {
      assert d'.cls.Required? && rc' == Some(d'.cls.m);
      LeTransitive(w.h, ProvidesClass(f), rc'.value.id, rc.value.id);
    }
    if Truthy(d.features) && Truthy(Opt(opts, "features")) {
      assert d.features.Arr?;
      assert forall x :: x in d.features.elems ==> x in d'.features.elems;
    }
  }

  /**
   * Where the source goes wrong: refining a descriptor that requires no
   * features with `:features => [x]` gives a descriptor whose features are
   * `true`, and matching it against any factory of an acceptable class then
   * raises NoMethodError. The corrected refinement requires exactly `[x]`.
   */
  lemma RefiningFeaturelessDescriptor(w: World, m: Mod, x: Value, f: Factory)
    requires Le(w.h, ProvidesClass(f), m.id)
    ensures WithOptionsAsWritten(Featureless(m), FeatureOptions(x), w) == Ok(Featureless(m).(features := Bool(true)))
    ensures Satisfies(Featureless(m).(features := Bool(true)), f, w) == Err(NoMethodError)
    ensures WithOptions(Featureless(m), FeatureOptions(x), w) == Ok(Featureless(m).(features := Arr([x])))
    ensures Satisfies(Featureless(m).(features := Arr([x])), f, w) == Ok(true) <==> x in ProvidesFeatures(f)
  {
    RefineFeatureless(w, m, x, true);
    RefineFeatureless(w, m, x, false);
    assert Elements(Arr([x])) == Some([x]);
  }

  /** The single-class, featureless descriptor `Dependency.new(:class => m)`. */
  function Featureless(m: Mod): Dependency {
    Dependency(Required(m), Nil, false, false, false)
  }

  /** The options `{:features => [x]}`. */
  function FeatureOptions(x: Value): Options {
    OMap([(Sym("features"), Arr([x]))])
  }

  /** Both refinements of a featureless descriptor by `{:features => [x]}`, step by step. */
  lemma RefineFeatureless(w: World, m: Mod, x: Value, asWritten: bool)
    ensures Refine(Featureless(m), FeatureOptions(x), w, asWritten)
      == Ok(Featureless(m).(features := if asWritten then Bool(true) else Arr([x])))
  {
    var d := Featureless(m);
    var fv := if asWritten then Bool(true) else Arr([x]);
    FeatureOptionsRead(x);
    assert Resolved(d, w.ns) == Ok(Some(m));
    assert RefinedClass(Some(m), FeatureOptions(x), w.h) == Ok(ModV(m));
    FeaturelessUnion(x, asWritten);
    RefineUnfold(d, FeatureOptions(x), w, asWritten, Some(m), ModV(m), fv);
    RefinedModuleDependency(d, ModV(m), fv);
  }

  /** What `{:features => [x]}` holds. */
  lemma FeatureOptionsRead(x: Value)
    ensures Opt(FeatureOptions(x), "class") == Nil && Opt(FeatureOptions(x), "features") == Arr([x])
  {
    OptFirst(FeatureOptions(x), 0, "features");
    OptNone(FeatureOptions(x), "class");
  }

  /** Adding `[x]` to no features: `true` as written, `[x]` corrected. */
  lemma FeaturelessUnion(x: Value, asWritten: bool)
    ensures RefinedFeatures(Nil, Arr([x]), asWritten) == Ok(if asWritten then Bool(true) else Arr([x]))
  {
    if !asWritten {
      assert Union([], [x]) == [x] by {
        assert Dedup([x]) == [x];
      }
    }
  }
}
