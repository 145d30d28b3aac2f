# Wirer, modelled in Dafny

Wirer is a Ruby dependency-injection container. A container holds factories.
A factory says:

- which class it provides and which features (arbitrary tags, usually Symbols) it provides;
- which constructor and setter dependencies it needs, each described by a `Dependency`;
- how it builds an object once those dependencies are constructed.

When an object is asked for, the container builds its dependencies in two phases:

1. Phase 1 builds constructor dependencies depth first. It keeps a stack of the factories under construction, so that a constructor cycle is reported instead of followed.
2. Phase 2 pops the queue of built objects and injects their setter dependencies. Every object that got through phase 2 is then sent `post_initialize`.

By default each factory is a singleton per container.

This project models that core as pure functions over immutable data:

- `Values`: Ruby values, dependency descriptors and the five factory variants. The variants are the bare interface, `FromArgs`, the class mixin/DSL, `FromInstance` and `Wrapped`.
- `Classes`: modules and classes as identities related by an explicit ancestry table. `Le` is Ruby's `<=`.
- `OrderedMaps`: Ruby's insertion-ordered `Hash`.
- `Errors`: the exception taxonomy, and `set_backtrace`.
- `Dependencies`: argument normalisation, the descriptor constructor, lazy class resolution, the match `===`, `match_factories` and `with_options`.
- `FactoryInterface`: the interface defaults, and how every variant provides, builds, injects and post-initialises.
- `Wrapping`, `FromArgsFactory`, `ClassDsl` and `Curried`: one module per factory file.
- `Registry` and `RegistryLaws`: the container's `add*` family and its lookups.
- `Sessions` and `SessionLaws`: the construction engine. It exists twice in the source:
  - `Legacy` is the container's own private methods, in `lib/wirer/container.rb`;
  - `Current` is `ConstructionSession`, which also wraps build errors and hands out curried handles.

  The session is a record threaded through fuel-bounded recursive functions. The record holds:
  - the singleton slots;
  - the phase-1 stack;
  - the phase-2 and post-initialise queues;
  - an identity counter for new objects;
  - an effect log of injections and notifications.
- `CyclicScenario`: one session worked through end to end, a constructor dependency one way and a setter dependency the other.
- `Visualizer`: the node and inheritance-edge computation of the Graphviz visualiser.

The rest of the Ruby program is a parameter, a `World`:

- the class hierarchy;
- which names resolve to constants;
- which classes define which setters and a `post_initialize` hook;
- which classes' `new` raises, and what.

Constructor blocks are opaque values. A block allocates, returns a given value or raises.

Where the code and its documentation disagree, the model follows the code, with one exception. Where the code is evidently wrong (see "## Findings"), the model keeps the code as written in a separate member, and the rest of the model, the container included, uses the corrected behaviour.

- **Matching.** `match_factories` raises on two candidates even when one provides `:default`. A test expects that one to be preferred.
- **Optionality.** A wrapper's dependency refinement cannot change optionality, although the class comment of `Factory::Wrapped` says it can.
- **The two engines.** The container's private methods neither wrap build errors nor support `:factory => true` dependencies. `ConstructionSession` does both. Both engines are modelled.

## Model

| member | source | states |
|---|---|---|
| Base.Dedup | lib/wirer/visualizer.rb:48 | Ruby `uniq`: the same elements, each once, never longer than the input |
| Base.Union | lib/wirer/factory/wrapped.rb:41 | Ruby `a \| b`: the elements of either, without duplicates, with the de-duplicated `a` as a prefix |
| Base.Without | lib/wirer/visualizer.rb:49-50 | Ruby `s - [x]`: exactly the elements other than `x`, and a duplicate-free list stays so |
| Base.Index | lib/wirer/container.rb:221 | `index`: the first position holding the element |
| Classes.LeTransitive | lib/wirer/dependency.rb:98 | the module order `<=` is transitive over a closed ancestry table |
| OrderedMaps.Put | lib/wirer/factory/from_args.rb:35 | `h[k] = v`: `k` now maps to `v`, every other key is unchanged, and a new key goes last while an existing key keeps its place |
| OrderedMaps.DeleteGet | lib/wirer/container.rb:78-79 | `h.delete(k)`: `k` is gone and every other key keeps its value |
| OrderedMaps.DeleteKeys | lib/wirer/container.rb:78-79 | `h.delete(k)`: the remaining keys are the old ones minus `k`, in order |
| OrderedMaps.Merge | lib/wirer/visualizer.rb:64 | `a.merge(b)`: the keys of either, with `a`'s keys first |
| OrderedMaps.MergeGet | lib/wirer/factory/from_args.rb:80 | in `a.merge(b)` a key has `b`'s value when `b` holds it, `a`'s otherwise |
| OrderedMaps.MergeValid | lib/wirer/factory/from_args.rb:80 | merging keeps every key bound once |
| Values.Or | lib/wirer/dependency.rb:40 | Ruby `a \|\| b`: `a` when truthy, else `b` |
| Values.EachPair | lib/wirer/factory/from_args.rb:34-36 | what `each do \|name, args\|` yields: a Hash's entries in order, nothing for a value without `each` |
| Errors.WirerFamily | lib/wirer/errors.rb:5-30 | the Wirer errors are exactly `Wirer::Error` and its three subclasses, and each is a StandardError |
| Errors.StandardFamily | lib/wirer/errors.rb:5 | the only errors a bare `rescue` misses are `Exception`, `ScriptError` and `NotImplementedError` |
| Errors.NewError | lib/wirer/errors.rb:9-12 | the message is the one given, else the cause's, else the class name; the cause is kept |
| Errors.CommonSuffix | lib/wirer/errors.rb:16-18 | the number of trailing frames shared by two backtraces, maximal |
| Errors.CommonSuffixMaximal | lib/wirer/errors.rb:16-18 | any common suffix that cannot be extended is the longest one |
| Errors.TrimSharedFrames | lib/wirer/errors.rb:16-18 | the popping loop removes exactly the longest common suffix from `bt` |
| Errors.SetBacktrace | lib/wirer/errors.rb:14-23 | without a cause `bt` is kept; with one, the shared frames are dropped, then one cause line and the whole cause backtrace follow, so the result ends with the cause's backtrace |
| Dependencies.AppendFeatureSpec | lib/wirer/dependency.rb:31 | `(opts[:features] \|\|= []) << x`: fails exactly on a truthy non-Array, else `x` goes last and no other option changes |
| Dependencies.AppendFeatureOther | lib/wirer/dependency.rb:31 | appending a feature leaves every other option as it was |
| Dependencies.LastModule | lib/wirer/dependency.rb:28-30 | the Module that `:class` ends up holding is one of the arguments; none exists only when no argument is a Module |
| Dependencies.Absorb | lib/wirer/dependency.rb:28-33 | the loop over requirements fails exactly when a feature must be appended to a truthy non-Array `:features` |
| Dependencies.AbsorbClass | lib/wirer/dependency.rb:30 | after the loop `:class` is the last Module argument, or what the options held |
| Dependencies.AbsorbFeatures | lib/wirer/dependency.rb:31 | after the loop `:features` is the old list followed by every non-Module argument, in order |
| Dependencies.AbsorbKeepsOtherOptions | lib/wirer/dependency.rb:26-35 | the loop touches no option but `:class` and `:features` |
| Dependencies.NormaliseArgs | lib/wirer/dependency.rb:26-35 | a trailing Hash is the options; the last Module wins `:class`; the other arguments are appended to `:features` in order; failure only on a non-Array `:features` |
| Dependencies.NormaliseArgOrArgsList | lib/wirer/dependency.rb:18-24 | a Hash is taken as the options, a lone Module becomes `{:class => it}` and any other lone value `{:features => [it]}` |
| Dependencies.SingleArgOptions | lib/wirer/dependency.rb:22 | a single non-list argument normalises to a one-option hash |
| Dependencies.PlainArgsOptions | lib/wirer/dependency.rb:26-35 | without an options hash only `:class` and `:features` are set, so the flags read as nil |
| Dependencies.PlainArgsClassAndFeatures | lib/wirer/dependency.rb:26-35 | without an options hash the last Module is the class and the rest are the features |
| Dependencies.PlainArgsOptionUnset | lib/wirer/dependency.rb:26-35 | without an options hash every key other than `:class` and `:features` is absent |
| Dependencies.NewDependencySpec | lib/wirer/dependency.rb:39-54 | `:class`, else `:module`; a Module is required, a String is kept as a pending name, nil requires nothing, and anything else is an ArgumentError; the flags follow truthiness and default to false |
| Dependencies.DescriptorFromPlainArgs | lib/wirer/dependency.rb:10-12 | `dependency :name, Klass, :feature` gives a single, mandatory descriptor on the last Module and the other arguments in order |
| Dependencies.RequiredClass | lib/wirer/dependency.rb:64-67 | a pending name is resolved on first use and the answer cached; an unknown name raises NameError and caches nothing |
| Dependencies.ResolvedOnce | lib/wirer/dependency.rb:64-67 | once resolved, later resolution returns the same class whatever the namespace then holds |
| Dependencies.AllProvided | lib/wirer/dependency.rb:99 | `all? { include? }`: every required feature is provided |
| Dependencies.Satisfies | lib/wirer/dependency.rb:96-100 | a factory matches iff no class is required or its class is `<=` the required one, and every required feature is provided; the errors are a failed name resolution and non-enumerable features |
| Dependencies.CandidatesSpec | lib/wirer/dependency.rb:85 | the candidates are exactly the matching factories, as a subsequence of the registry in its order; any error raised by a test is the error |
| Dependencies.CandidatesStep | lib/wirer/dependency.rb:85 | the candidates of a list are its first factory if it matches, then the candidates of the rest |
| Dependencies.TwoCandidates | lib/wirer/dependency.rb:85-86 | two matching factories give at least two candidates |
| Dependencies.OneCandidate | lib/wirer/dependency.rb:85-89 | a matching factory gives at least one candidate |
| Dependencies.CandidatesNone | lib/wirer/dependency.rb:85-89 | when nothing matches there are no candidates |
| Dependencies.MatchFactories | lib/wirer/dependency.rb:84-94 | DependencyFindingError exactly for a single dependency with several candidates or a mandatory one with none; a multiple dependency gets the list; a single one gets the sole candidate, or nil |
| Dependencies.AmbiguousSingle | lib/wirer/dependency.rb:86-88 | two matches for a single dependency are an error, even when it is optional |
| Dependencies.NoMatch | lib/wirer/dependency.rb:89-93 | with no match, a mandatory dependency is an error, an optional single one is nil and an optional multiple one is `[]` |
| Dependencies.SingleMatchUnique | lib/wirer/dependency.rb:86-93 | the factory a single dependency settles on matches, and is the only match in the registry |
| Dependencies.RefinedClass | lib/wirer/dependency.rb:109-114 | a new class replaces the requirement only when it is `<=` the existing one (RuntimeError otherwise); without one the existing requirement stays |
| Dependencies.UnionFeatures | lib/wirer/dependency.rb:115-117 | the refined features hold the old ones first, without duplicates, and the new ones; an Integer existing value is a TypeError, another non-Array one a NoMethodError, and non-Array new features a TypeError |
| Dependencies.UnionFeaturesAsWritten | lib/wirer/dependency.rb:116 | as written, `nil \| x` and `false \| x` evaluate to `true`, and an Integer existing value is a TypeError |
| Dependencies.RefinedOptionsLookup | lib/wirer/dependency.rb:103-108 | the options `with_options` rebuilds from carry the flags, the class and the features, and nothing else |
| Dependencies.RefineSpec | lib/wirer/dependency.rb:102-119 | refinement resolves and refines the class, keeps the flags, and keeps or unites the features; the first error met is the error |
| Dependencies.RefinedModuleDependency | lib/wirer/dependency.rb:39-54 | refined options with a Module class give the descriptor with exactly those parts |
| Dependencies.WithOptions | lib/wirer/dependency.rb:102-119 | the flags are kept; a class requirement is never lost and only moves down the hierarchy; the old features stay first and in order, with the new ones added; RuntimeError for an incompatible class |
| Dependencies.WithOptionsAsWritten | lib/wirer/dependency.rb:116 | as written, refining a featureless descriptor with features gives features `true` |
| Dependencies.RefinementNarrows | lib/wirer/dependency.rb:102-119 | every factory the refined descriptor accepts was accepted by the original |
| Dependencies.RefiningFeaturelessDescriptor | lib/wirer/dependency.rb:116 | as written, the refined descriptor raises NoMethodError against any factory of an acceptable class; corrected, it accepts exactly the factories providing the new feature |
| Dependencies.RefineFeatureless | lib/wirer/dependency.rb:115-118 | both refinements of a featureless descriptor, as written and corrected |
| Dependencies.FeaturelessUnion | lib/wirer/dependency.rb:116 | `[x]` added to no features is `true` as written and `[x]` corrected |
| FactoryInterface.InterfaceDefaults | lib/wirer/factory/interface.rb:47-92 | the bare interface provides Object and no features, has empty dependency tables whatever the instance, and cannot build (NotImplementedError) |
| FactoryInterface.SetterDependenciesIgnoreInstance | lib/wirer/factory/from_args.rb:67 | no factory variant's setter dependencies depend on the instance passed |
| FactoryInterface.FromInstanceAnswers | lib/wirer/factory/from_instance.rb:11-22 | a constant-instance factory provides the instance's class and exactly the given features, declares no dependencies, and returns that same instance whatever dependencies it gets |
| FactoryInterface.MergeDependencies | lib/wirer/factory/class_mixins.rb:21-28 | the dependencies are merged into a trailing Hash argument, or else appended unless empty; the other arguments are untouched |
| FactoryInterface.DependenciesDelivered | lib/wirer/factory/from_args.rb:78-83 | every dependency name reaches the constructor's trailing Hash with its value (dependency keys win), and other keys of a given Hash are kept |
| FactoryInterface.PrependInitial | lib/wirer/factory/wrapped.rb:77-81 | no initial args leave the call alone, an Array is spread in front, any other value goes in front as one argument; the call's arguments stay last |
| FactoryInterface.RunBlock | lib/wirer/factory/from_args.rb:70-71 | a block allocates a fresh object from its arguments, returns its value, or raises |
| FactoryInterface.InjectSetsNamedAttribute | lib/wirer/factory/interface.rb:94-96 | injection sets exactly the named attribute, through any chain of wrappers, and fails exactly when the class has no such setter |
| FactoryInterface.PostInitializeIffHooked | lib/wirer/factory/interface.rb:98-100 | the hook runs iff the instance's class defines it, and otherwise nothing happens |
| Wrapping.WrappedFeatures | lib/wirer/factory/wrapped.rb:40-41 | the wrapper's features are the wrapped factory's, then the extra ones, without duplicates; a non-Array extra is a TypeError |
| Wrapping.RefinementsOption | lib/wirer/factory/wrapped.rb:46 | no `:dependencies` means no refinements; a Hash's entries are refined in order |
| Wrapping.RefineStepKeys | lib/wirer/factory/wrapped.rb:47-51 | one refinement never adds or removes a dependency name |
| Wrapping.RefineTablesKeys | lib/wirer/factory/wrapped.rb:46-60 | refining keeps both tables' names and their order |
| Wrapping.RefineTablesUntouched | lib/wirer/factory/wrapped.rb:43-49 | a dependency no refinement names keeps its descriptor |
| Wrapping.RefineTablesStatic | lib/wirer/factory/wrapped.rb:50-56 | the setter table is fixed exactly when some refinement names a non-constructor dependency |
| Wrapping.RefineStepUnknown | lib/wirer/factory/wrapped.rb:57-58 | refining a name that is neither a constructor nor a setter dependency fails |
| Wrapping.RefineTablesUnknown | lib/wirer/factory/wrapped.rb:57-58 | one unknown name anywhere in the refinements makes the whole wrapping fail |
| Wrapping.NewWrappedWithSpec | lib/wirer/factory/wrapped.rb:35-67 | the wrapper holds the wrapped factory, its class, the united features and the refined tables; `:args` wins over the block; it fails as the features or the refinement fail |
| Wrapping.NewWrappedSpec | lib/wirer/factory/interface.rb:102-104 | `wrapped_with` gives a wrapper of the receiver with its class, providing its features first and the extra ones, and otherwise leaving its dependencies as they were |
| Wrapping.NewWrappedAsWrittenSpec | lib/wirer/factory/wrapped.rb:46-60 | the as-written constructor differs from the corrected one only through `:dependencies` |
| Wrapping.WrappedTables | lib/wirer/factory/wrapped.rb:43-56 | the constructor table keeps the wrapped factory's names in order and its unrefined descriptors; a fixed setter table exists only when a setter dependency was refined |
| Wrapping.WrappedBuild | lib/wirer/factory/wrapped.rb:73-83 | a kept block builds alone; otherwise the wrapped factory builds with the initial args in front and the same dependencies |
| Wrapping.WrappedDelegates | lib/wirer/factory/wrapped.rb:69-92 | injection and post-initialisation are the wrapped factory's, and so are setter dependencies unless refined |
| Wrapping.WrappedUnknownName | lib/wirer/factory/wrapped.rb:58 | as written, an unknown refined name raises NameError, which `rescue Wirer::Error` misses; corrected, it raises `Wirer::Error` |
| FromArgsFactory.LastBindingOfHash | lib/wirer/factory/from_args.rb:34-36 | iterating a Hash binds each name once, so the last binding is the lookup |
| FromArgsFactory.BuildTableOk | lib/wirer/factory/from_args.rb:34-40 | building a table fails exactly when some entry cannot be normalised |
| FromArgsFactory.BuildTableGet | lib/wirer/factory/from_args.rb:34-40 | each name is bound to the descriptor of its last entry, and unnamed keys keep their old binding |
| FromArgsFactory.DependencyTable | lib/wirer/factory/from_args.rb:34 | a value without `each` is a NoMethodError; otherwise its pairs build the table |
| FromArgsFactory.DependencyTableOfHash | lib/wirer/factory/from_args.rb:33-36 | a Hash of specs gives a table with exactly its names, each bound to the normalised descriptor |
| FromArgsFactory.ConstructorSpec | lib/wirer/factory/from_args.rb:34 | `:constructor_dependencies` takes precedence over `:dependencies`, and neither means `{}` |
| FromArgsFactory.NewFactorySpec | lib/wirer/factory/from_args.rb:30-60 | the factory has the tables the options describe, the given features (default `[]`), the class or Object, and initial args only for a Class with `:args`; a table that cannot be built is the error |
| FromArgsFactory.NewFactoryValidation | lib/wirer/factory/from_args.rb:45-58 | a Module or no class without a block is an ArgumentError, and a non-Module `:class` is a TypeError; the remaining cases succeed |
| FromArgsFactory.FromArgsBuild | lib/wirer/factory/from_args.rb:69-91 | with a block, the block gets the dependencies then the arguments; otherwise the class is instantiated with dependencies merged and the initial args in front, or the build raises what its `new` raises |
| ClassDsl.ClassMixin | lib/wirer/factory/class_mixins.rb:16-19 | a class with the mixin provides itself, no features and empty tables for any instance |
| ClassDsl.ClassMixinBuild | lib/wirer/factory/class_mixins.rb:21-29 | a class factory calls `new` with the dependencies merged in; with no args and no deps it is a plain `new()`; what `new` raises, the build raises |
| ClassDsl.Inherit | lib/wirer/factory/class_mixins.rb:41-54 | a DSL class starts from copies of a factory superclass's tables and features, else from empty ones |
| ClassDsl.AddDependency | lib/wirer/factory/class_mixins.rb:62-65 | the descriptor goes into the setter table for `:setter` and the constructor table otherwise, replacing that name only; nothing else changes |
| ClassDsl.ProvideFeature | lib/wirer/factory/class_mixins.rb:58-60 | features are appended in declaration order, nothing else changes |
| ClassDsl.SubclassDependencies | lib/wirer/factory/class_mixins.rb:41-43 | a subclass sees all its superclass's dependencies except a redeclared name, and the superclass is unaffected |
| ClassDsl.RedeclarationReplaces | lib/wirer/factory/class_mixins.rb:62-65 | declaring a name twice keeps only the second descriptor and adds no name |
| Curried.ToProc | lib/wirer/factory/curried_dependencies.rb:26-31 | `to_proc` and `call` do what `new` does |
| Curried.HandleReusesDependencies | lib/wirer/factory/curried_dependencies.rb:17-24 | the captured dependencies are reused unchanged, so two builds differ only in object identity, or both raise what the class's `new` raises; a constant-instance handle returns its instance every time |
| Curried.HandleDeliversDependencies | lib/wirer/factory/curried_dependencies.rb:22-24 | every captured dependency reaches the constructor with its value, unless the class's `new` raises |
| Registry.NewContainer | lib/wirer/container.rb:15-21 | a new container has no factories, no names and satisfies the registry invariant |
| Registry.KeysOfAppend | lib/wirer/container.rb:111 | registering a factory adds exactly its identity |
| Registry.AddFactoryInstanceSpec | lib/wirer/container.rb:106-125 | a non-factory is a TypeError; else the factory goes last; its slot is emptied unless `:singleton` is `false`; a truthy name now finds it and other names are unchanged; the invariant is kept |
| Registry.BindName | lib/wirer/container.rb:113-114 | a truthy name is bound to the factory (the last binding wins), other names keep theirs |
| Registry.RegisteredInv | lib/wirer/container.rb:111-114 | registering one factory with its slot and name keeps the invariant |
| Registry.RegistrationOptions | lib/wirer/container.rb:77-80 | `add_factory` hands on exactly `:method_name` and `:singleton` |
| Registry.RegisterSpec | lib/wirer/container.rb:84 | what was made goes last, a truthy method name finds it, and the invariant is kept |
| Registry.AddFactorySpec | lib/wirer/container.rb:76-85 | with no other options and no block the factory itself is registered, else its wrapper, failing as the wrapper does |
| Registry.AddFactoryName | lib/wirer/container.rb:76-85 | after `add_factory` a truthy method name finds what was registered |
| Registry.AddFactoryKeeps | lib/wirer/container.rb:76-85 | `add_factory` appends exactly one factory and keeps the invariant |
| Registry.AddNewFactorySpec | lib/wirer/container.rb:88-91 | the FromArgs factory the options describe goes last, failing exactly when it cannot be made, with an empty slot unless `:singleton` is `false` |
| Registry.AddNewFactoryKeeps | lib/wirer/container.rb:88-91 | `add_new_factory` appends exactly one factory and keeps the invariant |
| Registry.AddInstanceSpec | lib/wirer/container.rb:94-102 | the instance's constant factory goes last, with the `:features` option's features and the instance's class |
| Registry.AddInstanceKeeps | lib/wirer/container.rb:94-102 | `add_instance` appends exactly one factory and keeps the invariant |
| Registry.SplitOptions | lib/wirer/container.rb:42 | a trailing Hash is popped as the options, else the options are `{}` |
| Registry.DefaultOptionSpec | lib/wirer/container.rb:44 | `:default` is removed; when truthy, `:default` is appended to the features |
| Registry.DefaultOptionOther | lib/wirer/container.rb:44 | `:default` changes no option but itself and `:features` |
| Registry.WrapDependencies | lib/wirer/container.rb:46-48 | a non-empty hash naming no known option becomes `{:dependencies => hash}`; any other hash is kept |
| Registry.NameOptionsSpec | lib/wirer/container.rb:52 | a given truthy method name is kept, else the leading Symbol becomes it |
| Registry.NamedFeatureSpec | lib/wirer/container.rb:50-54 | a leading Symbol is consumed and appended to the features; without one nothing changes |
| Registry.NamedFeatureOptions | lib/wirer/container.rb:50-54 | with a leading Symbol the method name is the given one or the Symbol, and the Symbol is the last feature |
| Registry.NameThenAppend | lib/wirer/container.rb:52-53 | naming then appending sets both the method name and the last feature |
| Registry.WithRest | lib/wirer/container.rb:59 | leftover positionals become `:args` unless there are none |
| Registry.WithRestOther | lib/wirer/container.rb:59 | leftover positionals touch no other option |
| Registry.DispatchSpec | lib/wirer/container.rb:56-69 | whatever the main argument, a successful dispatch appends one factory and keeps the invariant |
| Registry.AddSpec | lib/wirer/container.rb:41-70 | a successful `add` appends exactly one factory, leaves earlier ones alone, and keeps the invariant |
| Registry.ConstructByName | lib/wirer/container.rb:131-136 | registration is untouched, filled singleton slots stay filled, the invariant is kept, and an unknown name fails with nothing built |
| Registry.Lookup | lib/wirer/container.rb:138-142 | `container[...]` leaves registration alone and keeps filled slots; malformed arguments fail before anything is built |
| RegistryLaws.NoOptionsGiven | lib/wirer/container.rb:42-48 | without a trailing Hash, normalisation starts from `{}` and keeps it |
| RegistryLaws.NamedFeatureOfName | lib/wirer/container.rb:50-54 | `add :name, x` makes `:name` the method name and the one feature |
| RegistryLaws.NormaliseNamed | lib/wirer/container.rb:41-56 | `add :name, main` dispatches on `main` with no leftovers |
| RegistryLaws.AddNamedDispatch | lib/wirer/container.rb:41-70 | `add :name, main` is the dispatch on `main` with the name's options |
| RegistryLaws.PlainClassFactory | lib/wirer/factory/from_args.rb:30-60 | a class with features and no dependency options gives a FromArgs factory with empty tables |
| RegistryLaws.AddPlainClass | lib/wirer/container.rb:88-91 | such a factory is registered last with an empty slot, under its name if any |
| RegistryLaws.AddUnsetSingleton | lib/wirer/container.rb:106-114 | with `:singleton` unset the factory gets an empty slot |
| RegistryLaws.AddNamedClass | lib/wirer/container.rb:41-70 | `add :logger, Logger` registers a dependency-free FromArgs factory for the class, under the name, with the name as its one feature and an empty singleton slot |
| RegistryLaws.AddNamedModule | lib/wirer/container.rb:61-64 | `add :name, SomeModule` is `add_new_factory` with the Module as `:class` |
| RegistryLaws.AddNamedInstance | lib/wirer/container.rb:41-70 | `add :config, object` registers a constant-instance factory under the name, with the name as its feature and an empty slot |
| RegistryLaws.DispatchNamedInstance | lib/wirer/container.rb:67-68 | the registration half of `add :config, object` |
| RegistryLaws.AddInstanceSingleton | lib/wirer/container.rb:94-102 | an instance factory gets an empty slot when `:singleton` is unset |
| RegistryLaws.AddFactoryAsIs | lib/wirer/container.rb:58-60 | a factory with no options is registered unwrapped, even a class that is its own factory |
| RegistryLaws.NormaliseFactory | lib/wirer/container.rb:41-56 | a lone factory normalises to itself with no options |
| RegistryLaws.DispatchFactoryAsIs | lib/wirer/container.rb:76-85 | the registration half of `add factory` |
| RegistryLaws.NothingToWrap | lib/wirer/container.rb:77-83 | with no options there is nothing to wrap and a nameless singleton is registered |
| RegistryLaws.SingletonByName | lib/wirer/container.rb:217-230 | after a by-name request returns an instance it fills the slot, and asking again returns it with nothing built, injected or notified |
| Sessions.BuildFailure | lib/wirer/construction_session.rb:96-103 | Current wraps a non-Wirer StandardError in DependencyConstructionError with the original as cause and re-raises Wirer errors; Legacy passes every error through |
| Sessions.CurrentBuildFailures | lib/wirer/construction_session.rb:96-103 | in Current, a build failure is always a Wirer error or something outside StandardError |
| Sessions.WithoutArgs | lib/wirer/container.rb:217-234 | a filled slot is returned unbuilt; a factory on the stack is a cycle; otherwise the stack is restored, the slot (if any) holds the result, the object is queued for phase 2 last, every new identity is queued exactly once, and nothing is injected |
| Sessions.SettleKeepsPhase1 | lib/wirer/container.rb:226-232 | popping the stack, filling the slot and queueing restores the stack and queues the object last |
| Sessions.BuildWithDeps | lib/wirer/container.rb:242-245 | the dependencies and the object built on them take one identity each, and all but the object itself are already queued for phase 2 |
| Sessions.ConstructEntries | lib/wirer/container.rb:197-203 | constructing a table of dependencies restores the stack, keeps filled and in-progress slots, queues every object it builds exactly once, and injects nothing |
| Sessions.ConstructDependency | lib/wirer/container.rb:205-207 | constructing a dependency restores the stack, keeps filled slots and queues every object it builds exactly once |
| Sessions.MapCandidates | lib/wirer/construction_session.rb:49-58 | the callback gives one object per candidate, in order |
| Sessions.Callback | lib/wirer/construction_session.rb:49-58 | the per-candidate block restores the stack and queues every object it builds exactly once |
| Sessions.WithArgs | lib/wirer/container.rb:236-240 | a build with arguments always allocates a new identity and queues its object for phase 2 last (the bypass of the slot and the stack is stated by SessionLaws.WithArgsBuildsFromDependencies and SessionLaws.WithArgsBypass) |
| Sessions.InjectAll | lib/wirer/construction_session.rb:111-116 | every constructed setter dependency is injected into the instance under its own name with its own value, in order, and the loop fails (NoMethodError) exactly when a setter is missing |
| Sessions.SetterPhase | lib/wirer/container.rb:247-252 | setter injection only affects the instance, keeps the stack and only adds to the phase-2 queue |
| Sessions.KeepsTransitive | lib/wirer/container.rb:180-186 | what a phase-2 round keeps is kept across rounds |
| Sessions.DrainProperties | lib/wirer/container.rb:182-186 | phase 2 keeps the slots and the stack, only injects, and when it succeeds its queue is empty |
| Sessions.RoundComposes | lib/wirer/container.rb:182-186 | one round followed by the rest of phase 2 is phase 2 |
| Sessions.PostInitAll | lib/wirer/container.rb:254-256 | after the effects already made, one notification per queued object whose class has the hook, in queue order, and nothing else |
| Sessions.NoticesSpec | lib/wirer/container.rb:254-256 | an object is notified exactly when it is queued and its class has the hook; only notifications are added |
| Sessions.Perform | lib/wirer/container.rb:209-215 | the request restores the stack on success, keeps filled slots, and queues every object it builds exactly once |
| Sessions.Finish | lib/wirer/container.rb:176-188 | at the end of phase 2, the slots have the same keys, filled slots are unchanged, and only injections have happened |
| Sessions.RunSession | lib/wirer/container.rb:173-195 | no notification comes before an injection, filled slots are kept, and the slots keep their keys |
| Sessions.PostInitialisedEvenOnFailure | lib/wirer/container.rb:187-191 | whatever the session's result, a failure included, every object that got through phase 2 is post-initialised, in the order it got through, exactly when its class has the hook |
| Sessions.NotifiedAfterInjected | lib/wirer/container.rb:188-190 | no notification precedes an injection |
| SessionLaws.CycleReport | lib/wirer/container.rb:220-223 | a repeated factory raises a cycle naming it first and last, with the factories pushed since between them in order; nothing is built |
| SessionLaws.CycleShape | lib/wirer/construction_session.rb:73 | the reported cycle is the stack from the factory's first place, closed by the factory |
| SessionLaws.SingletonStable | lib/wirer/construction_session.rb:69-86 | a singleton is built at most once: the next session returns the cached instance with no effects |
| SessionLaws.BuiltObjectNotified | lib/wirer/construction_session.rb:16-38 | an object a successful session built is post-initialised when its class has the hook |
| SessionLaws.ConstructEntriesKeys | lib/wirer/construction_session.rb:40-46 | the constructed Hash has exactly the table's names |
| SessionLaws.WithoutArgsBuildsFromDependencies | lib/wirer/construction_session.rb:69-97 | for a factory not yet cached, the object returned is the factory's `new_from_dependencies` over the constructor dependencies constructed with the factory pushed, taking the next identity, then settled into its slot and the phase-2 queue; it succeeds exactly when the factory is not under construction and both steps succeed |
| SessionLaws.WithArgsBuildsFromDependencies | lib/wirer/construction_session.rb:88-97 | a build with arguments returns `new_from_dependencies` over the constructor dependencies constructed with nothing pushed and the arguments; afterwards only the identity counter and the phase-2 queue differ from what constructing the dependencies left, so no slot is read or written and the stack is not consulted |
| SessionLaws.WithArgsBypass | lib/wirer/construction_session.rb:88-92 | a factory without constructor dependencies is built afresh and queued even when its slot is filled or it is under construction |
| SessionLaws.HandleMode | lib/wirer/construction_session.rb:48-59 | Legacy always builds; Current builds too, except that a `:factory => true` dependency on a singleton is an error and on any other factory gives a handle with exactly its constructor dependencies, the session being exactly what constructing those dependencies left, so the factory itself is neither built nor queued |
| SessionLaws.DependencyResultShape | lib/wirer/construction_session.rb:48-59 | a match error is raised before any candidate is built; a multiple dependency gives one object per candidate; an unmatched optional single gives nil |
| CyclicScenario.MutualReference | test/container_test.rb:298-306 | with `Foo` needing `Bar` through a setter and `Bar` needing `Foo` through its constructor, asking for `Foo` is no cycle error: it returns `Foo` with the `Bar` built for it injected as `bar`, that `Bar` received the same `Foo` as its constructor's `:foo`, and both singleton slots are filled |
| Visualizer.CleanFeatures | lib/wirer/visualizer.rb:48-50 | the features without nil, repeats or `:default` |
| Visualizer.NodeFromFactory | lib/wirer/visualizer.rb:47-52 | the factory's class, and its features de-duplicated without nil and `:default`, and without the method name unless the class is Object |
| Visualizer.NodeFromDependency | lib/wirer/visualizer.rb:54-58 | the required class or Object, and the required features de-duplicated without nil and `:default` |
| Visualizer.DependencyNodes | lib/wirer/visualizer.rb:65 | one node per dependency, in order |
| Visualizer.FactoryNodes | lib/wirer/visualizer.rb:63-66 | a factory contributes its dependencies' nodes, then its own |
| Visualizer.FactoryNodeDrawn | lib/wirer/visualizer.rb:63-66 | every named factory is drawn under the name it is registered with |
| Visualizer.RejectGeneric | lib/wirer/visualizer.rb:69 | exactly the featureless Object, String and Hash nodes are dropped |
| Visualizer.Bare | lib/wirer/visualizer.rb:67-68 | a featureless node for each class found |
| Visualizer.ClassesOf | lib/wirer/visualizer.rb:67 | the classes of the nodes |
| Visualizer.Nodes | lib/wirer/visualizer.rb:62-71 | given a name table: no duplicates, no featureless generic node, and exactly the drawn nodes plus a featureless node per class |
| Visualizer.NodesOfContainer | lib/wirer/visualizer.rb:62-71 | corrected to read the container's own name table: no duplicates, and every factory registered under a name is drawn with that name unless its node is generic |
| Visualizer.NodesUndefinedMethod | lib/wirer/visualizer.rb:63 | as written, `nodes` is a NoMethodError on every container with no factory named `:factories_by_method_name`, a new one included; corrected, a new container draws nothing |
| Visualizer.LessThanMeaning | lib/wirer/visualizer.rb:98-107 | below means a subclass with at least the parent's features that is a different node (corrected: different as a set) |
| Visualizer.LessThanStrictOrder | lib/wirer/visualizer.rb:98-107 | the corrected order is irreflexive, asymmetric and transitive over an acyclic hierarchy |
| Visualizer.FeatureOrderCycle | lib/wirer/visualizer.rb:104 | as written, two nodes whose features differ only in order are each below the other |
| Visualizer.MostImmediateParent | lib/wirer/visualizer.rb:87-93 | a parent is found iff some node is above the child, and the one chosen is above it (the as-written and the corrected order alike) |
| Visualizer.EdgesFor | lib/wirer/visualizer.rb:86-95 | every edge links a child to a node above it (the as-written and the corrected order alike) |
| Visualizer.EdgeHasParent | lib/wirer/visualizer.rb:94 | an edge leaves a child only when a node is above it (the as-written and the corrected order alike) |
| Visualizer.ParentGivesEdge | lib/wirer/visualizer.rb:94 | a child with a node above it gets an edge (the as-written and the corrected order alike) |
| Visualizer.InheritanceEdges | lib/wirer/visualizer.rb:83-96 | every edge goes from a node to a node strictly above it (corrected order) |
| Visualizer.InheritanceEdgeExists | lib/wirer/visualizer.rb:83-96 | a node has an edge exactly when some node is strictly above it (corrected order) |
| Visualizer.NoMutualEdges | lib/wirer/visualizer.rb:83-96 | no two nodes are linked to each other (corrected order) |
| Visualizer.InheritanceEdgesAsWritten | lib/wirer/visualizer.rb:83-107 | as written, every edge goes to a node the as-written order puts above |
| Visualizer.MutualEdgesAsWritten | lib/wirer/visualizer.rb:104 | as written, two nodes differing only in feature order are linked both ways |

## Left out

- Mutex serialisation in `Container` and `ConstructionSession`: concurrency only. Each top-level request is one sequential session.
- Runtime definition of constructor methods on the container, and `inject_methods_into`: Ruby metaprogramming. The name table stands in for them; a clash with an existing method only warns.
- The `:getter`, `:setter` and `:accessor` options of the class DSL: they only generate accessors and set visibility.
- `inspect`, `requirements_to_s`, error message texts and `warn`: text output only. Errors are modelled by their class.
- The Graphviz strings and file output of the visualiser, its `dependency_edges` and its node numbering: output only.
- `lib/wirer/service.rb` and `lib/wirer.rb`: `service.rb` needs `Dependency#check_argument`, which is not part of this model. `wirer.rb` is only the `Wirer do` shortcut.
- Block arguments (`&block_arg`) passed through to constructors: only their presence is modelled, as the `hasBlock` flag of a by-name request.
- String-to-constant lookup: a name resolves through a map from names to modules supplied by the caller.
- `singleton_factories_instances`, `Dependency#factory?` and `curry_with_dependencies`: referenced by `ConstructionSession` but not defined in the source. They are modelled as the container's slot map, the descriptor's `handle` flag and the `Handle` value.
- The session's recursion does not always terminate: non-singleton factories in a setter cycle keep creating objects. Every engine function therefore takes a fuel argument, and running out of fuel is an `OutOfFuel` failure that the Ruby program does not have.
- Sessions.WithoutArgs: "queued exactly once" is stated as a count. The number of new identities equals the number of new phase-2 entries; the entries are not matched to the identities one by one.
- Dependencies.UnionFeatures: an Integer existing `:features` refined with Integer features is a TypeError here, in the as-written union too. Ruby computes their bitwise or, a non-list that the later match fails on; bitwise or on unbounded integers is not modelled. An existing `:features` of `true` is a NoMethodError in the corrected union, where `true | x` is `true`; the as-written union keeps Ruby's `true`.
- Dependencies.AppendFeatureSpec: a truthy `:features` value that is not an Array is a NoMethodError. Ruby's `<<` would instead append to a String or shift an Integer.
- FromArgsFactory.NewFactorySpec: a truthy `:features` that is not an Array is a TypeError when the factory is made. The source stores it and fails only when it is later enumerated.
- Visualizer.Nodes: takes the name table as a parameter. As written, `nodes` asks the container for `factories_by_method_name`, which it does not define (see "## Findings"); `Visualizer.NodesOfContainer` reads the container's table instead.
- Registry.AddFactorySpec: `add_factory` wraps with the corrected `wrapped_with` and the corrected `with_options` (see "## Findings"). So an unknown dependency name is a `Wirer::Error`, not a NameError. A constructor dependency without features, refined with `:features => [:x]`, requires `[:x]`, where the code gives `true`.
- FactoryInterface.InjectSetsNamedAttribute: a setter that exists but raises is not modelled. Injection fails only when the setter is missing.
- FactoryInterface.PostInitializeIffHooked: a `post_initialize` hook that raises is not modelled. Such a hook would stop the rest of the post-initialisation loop.
- Visualizer.NodeFromDependency: features that are neither nil nor an Array raise. Ruby would accept a Hash through `compact` and `uniq`.
- OrderedMaps: Ruby `Hash#==` ignores insertion order, but equality of the model's hashes does not. Contracts compare hashes key by key where that matters.
- Registry: factories made by `add` get fresh identities (`AddedKey`) from a counter. Ruby compares them by object identity.

## Findings

| source | as written | input that shows it | evidently intended | confidence | as-written member | corrected member |
|---|---|---|---|---|---|---|
| lib/wirer/dependency.rb:116 | `new_options[:features] \|= new_required_features`, with `new_options[:features]` nil when the descriptor requires no features | refine `Dependency.new(:class => Foo)` with `{:features => [:x]}`: the features become `true`, and matching the result against any factory of class `Foo` raises NoMethodError | the refined descriptor requires `[:x]` | not executed; high | Dependencies.WithOptionsAsWritten, Dependencies.RefiningFeaturelessDescriptor | Dependencies.WithOptions, Dependencies.RefinementNarrows |
| lib/wirer/factory/wrapped.rb:58 | the error message interpolates `arg_name`, which is not defined there | wrap a factory with `:dependencies => {:nope => Foo}` where `:nope` is no dependency of the factory: NameError, which `rescue Wirer::Error` does not catch | `Wirer::Error` naming the unknown dependency | not executed; high | Wrapping.WrappedUnknownName | Wrapping.NewWrappedSpec, Wrapping.RefineTablesUnknown |
| lib/wirer/visualizer.rb:63 | `nodes` sends `factories_by_method_name` to the container, which defines only the instance variable `@factories_by_method_name` and no method of that name | any container without a factory added under the method name `:factories_by_method_name`, a new one included: `nodes`, and so `inheritance_edges`, raise NoMethodError | the container's name table is read | not executed; high | Visualizer.NodesUndefinedMethod | Visualizer.NodesOfContainer |
| lib/wirer/visualizer.rb:104 | nodes are told apart by comparing feature Arrays with `==`, which is order-sensitive | two factories of class `K`, one providing `[:a, :b]` and one `[:b, :a]`: each node is `less_than` the other, and `inheritance_edges` links them both ways | a strict order, with features compared as sets | not executed; medium | Visualizer.FeatureOrderCycle, Visualizer.MutualEdgesAsWritten | Visualizer.LessThanStrictOrder, Visualizer.NoMutualEdges |
