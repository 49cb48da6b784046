# Dice dependency-injection container, modelled in Dafny

Dice is a PHP container. `addRule(id, rule)` registers rules, and
`create(id, args, forceNew)` builds an object graph. Each object's
constructor parameters are filled by the following, in this order:
- arguments given at the call site;
- the rule's `constructParams`;
- its `substitutions`;
- the instances it shares within one request;
- a new dependency;
- a default;
- null.

This project models that container over a small declared universe of
classes and proves what its test suite asserts. Each class in the universe
has a name, its ancestors and interfaces, and its constructor parameters.
Each parameter has an optional declared class, an optional default and a
nullable flag. The model's behaviour is taken from `tests/DiceTest.php`. The
engine's own source is not part of this model.

Modules:

- `Identifiers`: name normalisation, which is ASCII case-insensitive and
  strips leading `\`.
- `Classes`: the class universe and `IsA`.
- `Arena`: object identity.
  - Objects live in a heap indexed by `Ref`. Two PHP references are the same
    object exactly when they are the same index.
  - The store also holds the singleton map and the per-request map of
    `shareInstances`.
- `Rules`:
  - `Rule` has optional fields, so "not set" is different from "empty".
  - `Merge` layers one rule over another. A scalar field of the upper
    layer wins. A list field (`constructParams`, `call`) is overlaid
    position by position: the upper layer's entries win, and further base
    entries are kept. `substitutions` are looked up upper layer first.
    `shareInstances` and `newInstances` are the union of both layers.
  - `AddRule` merges a registration into the stored rule.
  - `GetRule` layers the wildcard `*` rule, then the rule of the nearest
    ancestor that has one, then the identifier's own rule.
  - Virtual names such as `$X` or `[X]` are identifiers that are not
    classes and are resolved through `instanceOf`.
- `Matcher`:
  - A typed parameter takes the first accepted call-site value anywhere in
    the pool.
  - An untyped parameter takes the next value.
- `Engine`: construction, as fuel-bounded mutually recursive functions.
  - `Make` is one `create`.
  - `Build` allocates an object and caches it before its dependencies are
    resolved. This is how a cycle through a shared class ends.
  - `Wire` resolves the parameters and runs the calls.
  - `ResolveParam` and `ResolveTyped` implement the per-parameter order.
  - `Expand` turns a rule's value descriptions into values: a literal, null,
    `['instance' => x]`, a callback, or a prebuilt object.
  - `FromRequest` manages the per-request shared instances.
  - `RunCalls` runs the post-construction `call` list.
- `Dice`: the container surface, `New`, `AddRule`, `GetRule` and `Create`.
  - Each `Create` starts a fresh request.
  - Each `Create` keeps every object and singleton that existed before.
- `Steps` and `Scenarios`: closed-form facts about single construction
  steps, used to compute the tests' concrete outcomes.
- `Sources`: the sources a constructor parameter can draw on, and the order
  in which it tries them, written apart from the engine.
  - `ParamPrecedence` proves that the engine's parameter step takes the
    first source on offer.
- `Laws`: all-inputs properties:
  - spelling;
  - argument order;
  - the order of call-site arguments and `constructParams`;
  - unknown classes.
- The test modules hold one lemma per modelled test method:
  - `LifetimeTests`, `ArgumentTests`, `NullTests`, `SubstitutionTests`;
  - `SharingTests`, `CycleTests`, `CallTests`, `VirtualTests`;
  - `GraphTests` for object graphs several levels deep;
  - `ConstructTests` for `constructParams` beside a dependency.
  - Each lemma states the exact heap and caches that `create` produces, and
    the identities the test asserts.

The fixture classes are not part of this model. Each test module's doc
comment lists the constructor signatures it assumes. These are assumptions
of that module only. For example, `A` is `A(B $b)` in the substitution
tests, but a class without parameters in the call and null tests and in
`BestMatch`.

On two points the model follows the tests:
- Call-site arguments come before `constructParams` in the pool.
  `testConstructParamsPrecedence` requires this: the call site's `C`, `D`
  beat the rule's `A`, `B`.
- Untyped parameters take leftover scalar arguments by position.
  `testScalarConstructorArgs` and `testConsumeArgs` require this.

## Model

| member | source | states |
|---|---|---|
| Dice.Create | tests/DiceTest.php:225-262 | One `create` keeps every existing object and every singleton. Under a shared rule without `forceNew`, the result is cached under the normalised id. A forced or non-shared build, under a rule with no factory `instanceOf`, is a new object, distinct from all earlier ones. A cached shared id returns its singleton and changes nothing. |
| Dice.SharedIsSingleton | tests/DiceTest.php:242-262 | Under a shared rule, once `create` made an instance, every later `create` of that id returns it and changes nothing, whatever the arguments and fuel. |
| Dice.ForcedIsFresh | tests/DiceTest.php:225-239 | When the rule has no factory `instanceOf`, `create(id, args, true)` returns an object that did not exist before. The cached singletons stay as they were, and none of them is the new object. |
| Dice.ForcedFixedFactory | tests/DiceTest.php:98-104 | The exception to `ForcedIsFresh`: when the `instanceOf` of an id is a closure that returns an existing object, `create(id, args, true)` returns that object and leaves the container unchanged. |
| Dice.CreateKeepsRules | tests/DiceTest.php:115-141 | `create` never changes the effective rule of any identifier. |
| Dice.New | tests/DiceTest.php:25-28 | A new container is valid and has no objects and no singletons. |
| Dice.AddRuleEffect | tests/DiceTest.php:115-141 | After `addRule(id, fields)`, `getRule(id)` honours every field given, whatever the wildcard, the ancestors or earlier registrations say. `getRule` of any other id that is not the wildcard and does not inherit from `id` is unchanged. |
| Rules.AddRule | tests/DiceTest.php:115-125 | The rule under the normalised id becomes the stored rule with the new fields merged over it. Every other registration is unchanged. |
| Rules.WildcardRoundTrip | tests/DiceTest.php:115-125 | `getRule('*')` returns the wildcard rule exactly as it was added. |
| Rules.WildcardIsInherited | tests/DiceTest.php:127-141 | An identifier with no rule of its own and no governed ancestor gets the wildcard rule unchanged. |
| Rules.SharedPrecedence | tests/DiceTest.php:529-543 | The effective `shared` of an id is its own, else its nearest governed ancestor's or interface's, else the wildcard's. |
| Rules.AddRuleSetsShared | tests/DiceTest.php:242-262 | A `shared` flag set by `addRule` is what `getRule` reports for that id. |
| Rules.AddRuleFrame | tests/DiceTest.php:115-125 | `addRule` on one id leaves the effective rule of any id that is neither that id, its descendant, nor the wildcard unchanged. |
| Rules.SubstitutionMerge | tests/DiceTest.php:265-319 | After merging, the overriding rule's substitution for a type wins, and otherwise the base rule's applies. |
| Rules.ForcesNewMerge | tests/DiceTest.php:176-189 | `newInstances` of a merged rule lists a type exactly when either layer does. |
| Rules.MergeAssociative | tests/DiceTest.php:115-141 | Layering rules is associative, so only the order of layers matters. |
| Rules.MergeNoRule | tests/DiceTest.php:115-125 | The empty rule is a unit of merging on both sides. |
| Rules.Overlay | tests/DiceTest.php:115-141 | A list laid over another keeps every position of the upper list and the base list's further positions, so it is as long as the longer of the two. |
| Rules.OverlayAssociative | tests/DiceTest.php:115-141 | Overlaying lists is associative: the top list wins, then the middle one, then the bottom one. |
| Rules.MergeHonours | tests/DiceTest.php:115-125 | The upper layer of a merge is honoured: its set scalars, each position of its lists, each substitution it declares, and each id it shares or forces. |
| Rules.AddRuleHonoured | tests/DiceTest.php:115-141 | After `addRule(id, fields)`, the effective rule of `id` honours `fields`, whatever the wildcard, the ancestors and earlier registrations of `id` say. |
| Rules.FirstKeyed | tests/DiceTest.php:275-283 | Finds the first substitution whose key matches in normal form. It reports none exactly when no entry matches. |
| Rules.FirstKeyedConcat | tests/DiceTest.php:265-319 | The first keyed entry of a concatenation comes from the front part if that part has one, else from the back part. |
| Rules.FirstGoverned | tests/DiceTest.php:529-543 | Finds the first ancestor with a rule of its own. It reports none exactly when no ancestor has one. |
| Identifiers.NormalizeIgnoresCase | tests/DiceTest.php:275-283 | Identifiers equal up to ASCII case have the same normal form. |
| Identifiers.NormalizeIgnoresLeadingSeparator | tests/DiceTest.php:641-644 | A leading namespace separator never changes the normal form. |
| Identifiers.NormalizeIdempotent | tests/DiceTest.php:275-283 | Normalising twice is normalising once. |
| Identifiers.NormalizeCanonical | tests/DiceTest.php:275-283 | The normal form is canonical, and a canonical identifier is its own normal form. |
| Identifiers.StripSpec | tests/DiceTest.php:641-644 | Stripping removes exactly the leading separators. |
| Identifiers.LowerSpec | tests/DiceTest.php:275-283 | Lower-casing maps each character and keeps the length. |
| Classes.IsAAncestor | tests/DiceTest.php:380-394 | A declared ancestor or interface is a supertype. |
| Classes.IsAReflexive | tests/DiceTest.php:265-283 | A class is an instance of itself under any spelling. |
| Matcher.TakeTyped | tests/DiceTest.php:380-394 | A typed parameter takes the first accepted pool entry and leaves the pool without it. It finds nothing exactly when no entry is accepted. |
| Matcher.FirstAccepted | tests/DiceTest.php:546-550 | Gives the position of the first accepted entry. It reports none exactly when none is accepted. |
| Matcher.TypedSkipsScalars | tests/DiceTest.php:388-394 | An accepted object behind any number of scalars is taken, and the scalars keep their order. |
| Matcher.TakeTypedHead | tests/DiceTest.php:380-385 | An accepted value at the head of the pool is the one taken. |
| Matcher.Without | tests/DiceTest.php:89-96 | Removing one pool entry keeps the others in order. |
| Engine.Make | tests/DiceTest.php:225-262 | A successful construction only grows the store and keeps it valid. A shared, unforced result is the singleton under the normalised id. A forced or non-shared, non-factory result is a new object of the target class, with one argument per parameter. |
| Engine.Build | tests/DiceTest.php:695-707 | Builds a new object of the class with one argument per parameter. When cacheable, it is the singleton for the key. |
| Engine.Prepare | tests/DiceTest.php:695-707 | The first step of a build: one new, still empty object of the class at the end of the heap, which becomes the singleton for the key when cacheable. No other singleton or request binding changes. |
| Engine.Wire | tests/DiceTest.php:322-331 | Completing an object fills exactly its parameters and changes no other existing object. |
| Engine.FromRequest | tests/DiceTest.php:555-571 | After a request-shared lookup, the request map binds the normalised key to the instance returned. |
| Engine.SharedKey | tests/DiceTest.php:609-633 | Finds the first `shareInstances` entry that serves a type. It reports none exactly when none does. |
| Engine.RunCalls | tests/DiceTest.php:500-525 | The calls add one log entry per call to the object, leave its arguments alone and change no other object. |
| Engine.RunFactory | tests/DiceTest.php:285-297 | A fresh-object callback returns a new object of its class. A fixed-object callback succeeds exactly when its object exists. |
| Engine.ExpandAll | tests/DiceTest.php:322-331 | A successful expansion gives one value per description and only grows the store. |
| Engine.ResolveParams | tests/DiceTest.php:322-365 | Successful resolution gives one value per parameter and only grows the store. |
| Sources.FirstOffered | tests/DiceTest.php:191-210 | Finds the first source in an order that has something to offer for a parameter. It reports none exactly when no source in the order does. |
| Sources.TypedPrecedence | tests/DiceTest.php:265-319 | A parameter declared with a class gets what the first source on offer supplies, in the order: call-site pool, substitution, request-shared instance, new dependency. The new dependency is always on offer. |
| Sources.UntypedPrecedence | tests/DiceTest.php:191-202 | An untyped parameter gets what the first source on offer supplies, in the order: pool, default, null. With none on offer it is unresolvable. |
| Sources.ParamPrecedence | tests/DiceTest.php:191-210 | Resolving any parameter is taking the first source on offer in its order. Only an untyped parameter can have none on offer, and then it is unresolvable. |
| Sources.ForcedDependency | tests/DiceTest.php:176-189 | A dependency that `newInstances` names, when its rule has no factory `instanceOf`, is a new object of its class, however its instance is cached. No singleton is rebound, and none of them is the new object. |
| Sources.SharedDependency | tests/DiceTest.php:242-262 | A dependency that `newInstances` does not name, whose rule is shared and whose singleton exists, is that singleton, and nothing is built. |
| Sources.DescribeRoundTrip | tests/DiceTest.php:299-308 | Expanding the descriptions of existing values (a literal, `null` or a prebuilt object) gives those values back, in order, with the store unchanged. A prebuilt object that does not exist is a `DanglingRef` error. |
| Sources.ExpandSharedInstance | tests/DiceTest.php:403-425 | `['instance' => x]` for a shared `x` that already has an instance is that instance, and the store is unchanged. |
| Sources.ExpandNewInstance | tests/DiceTest.php:427-438 | `['instance' => x]`, when `x` is not built by a factory and has no cached instance, fails with `UnknownClass` if the target class is undeclared. Otherwise it is a new object of `x`'s target class at the end of the arena, with one argument per constructor parameter. Every earlier object, singleton and request entry is kept, and a shared `x` is cached as the new object. |
| Sources.ExpandCallback | tests/DiceTest.php:285-297 | A callback that creates a class gives a new object of that class, and nothing else in the store changes. A callback that returns an existing object means the same as that object given directly. |
| Sources.ExpandShareReaches | tests/DiceTest.php:555-571 | `['instance' => x]` passes the current `shareInstances` scope to the object it builds. When that object's first parameter has type `t`, no substitution or literal supplies it, and the scope serves `t`, the argument is the instance the request shares for `t`. If the request already shared one, it is reused. |
| Steps.RunCallsLog | tests/DiceTest.php:500-525 | Whatever their arguments, the calls keep the object's earlier log as a prefix, and the entries they add carry the declared method names in declared order. |
| Steps.RunCallsInert | tests/DiceTest.php:500-515 | Calls with literal arguments are logged on the object in declared order. |
| Scenarios.CreateLeaf | tests/DiceTest.php:35-38 | A class without constructor parameters is one new object, cached when shared and not forced. |
| Laws.MakeSpelling | tests/DiceTest.php:275-283 | Two spellings of one identifier build the same thing. |
| Laws.CreateWithSlash | tests/DiceTest.php:641-644 | `create('\Foo\A')` is `create('Foo\A')`. |
| Laws.CreateUnknown | tests/DiceTest.php:150-159 | `create` of an undeclared class without rules fails with that class and builds nothing. |
| Laws.UnknownDependencyFails | tests/DiceTest.php:150-159 | This extends `testCreateInvalid`, which creates an undeclared class at the top level, to a nested dependency. A dependency whose class is undeclared makes its parameter fail with that class, even when the parameter has a default or allows null. |
| Laws.TypedArgAnyPosition | tests/DiceTest.php:380-394 | When the first parameter is typed and accepts object `v`, resolution is the same whether `v` comes first or after any number of scalars. |
| Laws.WireArgsAnyPosition | tests/DiceTest.php:380-394 | The same at the level of completing one object whose class's first parameter is typed and accepts `v`. |
| Laws.MakeArgsAnyPosition | tests/DiceTest.php:380-394 | The same at the level of one construction, when the first parameter of the class built accepts `v` and only scalars come before it. |
| Laws.CreateArgsAnyOrder | tests/DiceTest.php:380-394 | When the first constructor parameter is typed and accepts the object `$b`, and only scalars stand before `$b` in the call-site arguments, moving `$b` to the front does not change what `create` builds: `create(id, ['Foo', $b])` is `create(id, [$b, 'Foo'])`. |
| Laws.UntypedInOrder | tests/DiceTest.php:361-365 | Untyped parameters take the pool in order, one value each, and build nothing. |
| Laws.ArgsBeforeConstructParams | tests/DiceTest.php:722-734 | For a class with untyped parameters, the call-site arguments come first and the literals fill only what is left. |
| Laws.DependencyThenUntyped | tests/DiceTest.php:349-372 | A typed first parameter that no scalar of the pool serves and no substitution or request-shared instance covers is a new dependency. The untyped parameters after it then take the pool in order, one entry each, all of it still there. |
| Laws.CreateArgsThenLiterals | tests/DiceTest.php:322-331 | At the container surface, the new object holds the call-site arguments, then the literals, as many as it has parameters. It is cached when shared. |
| LifetimeTests.ForceNewInstance | tests/DiceTest.php:225-239 | The first shared `create` builds and caches object 0, and the second returns it. The forced one builds object 1 and leaves 0 cached. |
| LifetimeTests.SetDefaultRule | tests/DiceTest.php:115-125 | `getRule('*')` is the wildcard rule as added. |
| LifetimeTests.DefaultRuleWorks | tests/DiceTest.php:127-141 | Under a shared wildcard, `getRule('A')` is shared and `create('A')` returns the same object twice. |
| LifetimeTests.SharedNamed | tests/DiceTest.php:213-223 | A shared virtual name with `instanceOf` builds its class once, cached under the virtual name. |
| LifetimeTests.InterfaceRule | tests/DiceTest.php:529-543 | A shared rule on an interface makes its implementing class a singleton. |
| LifetimeTests.NewInstances | tests/DiceTest.php:176-189 | Although `B` is shared, two `create('A')` get two different `B`s. |
| ArgumentTests.CreateArgs | tests/DiceTest.php:380-394 | `create('A2', [$b, 'Foo'])` and `create('A2', ['Foo', $b])` build the same object. `$b` is the given `ExtendedB`, `$c` is a new `C`, and `$foo` is the scalar. |
| ArgumentTests.CreateArgs1 | tests/DiceTest.php:374-377 | With an `ExtendedB` made first, `create('A', [$b])` builds an `A` whose `$b` is that `ExtendedB`, not a new `B`. |
| ArgumentTests.ConstructParamsPrecedence | tests/DiceTest.php:722-734 | `create(r)` gets the rule's literals, and `create(r, [z, w])` gets the call-site values. |
| ArgumentTests.ScalarConstructorArgs | tests/DiceTest.php:769-773 | A string and a null given at the call site are passed through in order. |
| ArgumentTests.BestMatch | tests/DiceTest.php:546-550 | The string goes to `$string` and the `A` to `$a`, though the string comes first. |
| ArgumentTests.ConsumeArgs | tests/DiceTest.php:89-96 | `ConsumeArgsSub $a` comes first and is built while the call-site `'B'` is still in the pool. It gets its own rule's literal, not `'B'`, and the top's `$s` then takes `'B'`. |
| NullTests.NullScalar | tests/DiceTest.php:737-744 | A `null` literal in `constructParams` is injected as null. |
| NullTests.NoScalar | tests/DiceTest.php:737-744 | Without the `[null]` rule, `NullScalar`'s untyped `$string` is still null, as its fallback, since nothing supplies it. |
| NullTests.NullScalarNested | tests/DiceTest.php:746-753 | A nested dependency is built under its own rule, so its parameter is null too. |
| NullTests.NullOverDefault | tests/DiceTest.php:737-744 | A `null` in `constructParams` is passed even to a parameter whose default is not null. |
| NullTests.DefaultValueAssigned | tests/DiceTest.php:191-194 | An untyped parameter with nothing supplied takes its default. |
| NullTests.DefaultNullAssigned | tests/DiceTest.php:196-202 | With `[['instance' => 'A'], null]`, `$a` is a new `A` and `$b` is null, although `B` could be built. |
| NullTests.NullSubstitution | tests/DiceTest.php:204-210 | A `null` substitution for `B` makes `$b` null, while `$a` is still a new `A`. |
| NullTests.TwoDefaultNullClass | tests/DiceTest.php:756-760 | The untyped `$a = null` is null, and the typed `NB $b = null` is a new `NB`. |
| SubstitutionTests.SubstitutionByName | tests/DiceTest.php:265-283 | Substituting `['instance' => x]` for `B`, with `x` any spelling of `ExtendedB`, gives `A` a new `ExtendedB`, which is a `B`. |
| SubstitutionTests.SubstitutionCallback | tests/DiceTest.php:285-297 | A callback substitution gives `A` the new `ExtendedB` it returns. |
| SubstitutionTests.SubstitutionObject | tests/DiceTest.php:299-308 | A prebuilt substitution gives `A` that very object, and nothing else is built. |
| SubstitutionTests.SubstitutionByVirtualName | tests/DiceTest.php:463-475 | With `$B` a virtual name for `ExtendedB`, substituting `['instance' => '$B']` for `B` gives `A` a new `ExtendedB`, which is a `B`. |
| SubstitutionTests.NonSharedComponentByNameA | tests/DiceTest.php:427-438 | With `['instance' => '$B']` in `A`'s `constructParams`, `$a->b` is a new `ExtendedB`, which the typed parameter takes from the pool. |
| SharingTests.ShareInstancesMultiple | tests/DiceTest.php:609-633 | Both users in one request hold one `Shared`. A second request builds a new group with a different `Shared`. |
| SharingTests.NamedShareInstances | tests/DiceTest.php:573-597 | Sharing a virtual name whose rule builds `Shared` works like sharing `Shared`: one instance per request. |
| SharingTests.TwoRequests | tests/DiceTest.php:555-571 | Two requests in a row build two groups, at objects 0 to 3 and 4 to 7. |
| SharingTests.GroupLinks | tests/DiceTest.php:555-571 | In a group, the top holds both users, and both users hold the same `Shared`. |
| CycleTests.CyclicReferences | tests/DiceTest.php:695-707 | `create('CyclicA')` terminates. `$a->b` and `$a->b->a->b` are one object, and it is the cached singleton. |
| CallTests.Call | tests/DiceTest.php:500-506 | The method named in `call` is invoked once, with no arguments. |
| CallTests.CallWithParameters | tests/DiceTest.php:508-515 | The call receives the rule's literal arguments in order. |
| CallTests.CallWithInstance | tests/DiceTest.php:517-525 | The call receives a new `A`, built after the object it is called on. |
| VirtualTests.MultipleSubstitutions | tests/DiceTest.php:477-497 | The two `Y2` dependencies are two different objects, built under `$Y2A` and `$Y2B`, each holding its own literal. |
| GraphTests.ObjectGraphCreation | tests/DiceTest.php:167-174 | `create('A')` builds the five-level graph, one new object per class. `$a->b` is a `B`, `$a->b->c` a `C`, its `$d` a `D`, its `$e` an `E`, and that one's `$f` an `F`. |
| GraphTests.ShareInstancesNested | tests/DiceTest.php:600-606 | With `F` in `A4`'s `shareInstances`, `$a->m1->f` and `$a->m2->e->f` are one object, though the second is two levels deeper. |
| ConstructTests.ConstructParamsNested | tests/DiceTest.php:333-346 | `RequiresConstructorArgsA`, built as `ParamRequiresArgs`'s `$a` under a rule that shares `D`, gets its own rule's literals: `$obj->a->foo` and `$obj->a->bar`. |
| ConstructTests.ConstructParamsMixed | tests/DiceTest.php:349-359 | With literals `[x, y]` on `RequiresConstructorArgsB`, `$foo` is `x`, `$bar` is `y`, and the typed `$a` is a new `A`: the literals skip the typed parameter. |
| ConstructTests.ConstructArgsMixed | tests/DiceTest.php:367-372 | With call-site `[x, y]` and no rule, `$foo` is `x`, `$bar` is `y`, and the typed `$a` is a new `A`. |

## Left out

- Reflection and autoloading are replaced by a declared class universe.
- PHP internal classes and extensions are left out because they depend on the
  host runtime. These are `DirectoryIterator`, `PDO`, `mysqli` and a trait
  extending an internal class.
- PHPUnit mocks (`testCreate`) are left out for the same reason.
- Closures are modelled as `Fresh(class)` and `Fixed(ref)` factories. Their
  bodies are not modelled, so `testNoMoreAssign` and `testAssignSharedNamed`
  are not modelled. The latter asserts nothing.
- An object built by a factory `instanceOf` does not run the rule's `call`
  list or constructor resolution. The factory's object is used as is.
- Errors are `UnknownClass`, `Unresolvable(parameter)`, `DanglingRef` and
  `OutOfFuel`. PHP's exception classes and messages are left out.
- Recursion is bounded by `fuel`. A `create` that would need more nesting
  than the fuel allows fails with `OutOfFuel`. Every modelled test succeeds
  with the small fuel its lemma asks for.
- Thread safety is left out: the container is single-threaded.
- `testConstructArgs` is covered by `Laws.CreateArgsThenLiterals` and
  `Laws.UntypedInOrder`, whose `RequiresConstructorArgsA($foo, $bar)` has
  untyped parameters only.
- `testCreateArgs4` is not modelled. The signature of `A3` is unknown.
- ArgumentTests.BestMatch: the `A` passed in is taken to be a class with no
  constructor parameters. Only its class matters to the test.
- `testMultipleSharedInstancesByNameMixed` and
  `testNonSharedComponentByName` are not modelled. Their virtual-name rules
  work like `SharingTests.NamedShareInstances` and
  `SubstitutionTests.NonSharedComponentByNameA`, but they need the
  signatures of `Y1`, `Y3` and the mixed sharing fixtures, which are unknown.
- The namespace tests (`testNamespaceBasic` to
  `testNamespaceRuleSubstitution`) have no lemmas of their own. In the model a
  namespaced name such as `foo\a` is an ordinary identifier. The fixture
  lemmas hold for every canonical name, including namespaced ones. The
  leading separator and case are covered by `Laws.CreateWithSlash` and
  `Identifiers.NormalizeIgnoresCase`. The rule and substitution keys these
  tests spell with capitals are not restated in namespaced form.
- `testTwoDefaultNullClassClass` is not modelled. Its fixture signature is
  unknown.
- Engine.Make: the contract states the shape of a non-shared result, but not
  its wiring. Each modelled test's lemma states that wiring.
- Laws.TypedArgAnyPosition: only the first constructor parameter is
  covered, and only scalars may stand before the object. An object behind
  untyped parameters, or behind other objects, is not covered.
- Laws.WireArgsAnyPosition: the same restriction, to a typed first
  parameter and scalars before the object.
- Laws.MakeArgsAnyPosition: the same restriction, to a typed first
  parameter and scalars before the object.
- Laws.CreateArgsAnyOrder: the same restriction, to a typed first
  parameter and scalars before the object.
- Dice.Create: a fresh index is promised only under a rule with no factory
  `instanceOf`. A factory that returns a fixed object gives that existing
  object, even when `forceNew` is set, as `Dice.ForcedFixedFactory` proves.
- Dice.ForcedIsFresh: the same exception. A fixed-object factory returns its
  existing object, so a forced `create` through it is not new.
- Sources.ForcedDependency: the same exception. A `newInstances` dependency
  whose rule has a fixed-object factory is that factory's existing object.
- Rules.Merge: `call` entries are overlaid by position, but an entry is not
  merged with the entry it replaces. `shareInstances` and `newInstances` of
  the two layers are concatenated, which lists each id of either layer.
- Classes.IsA: checks only the ancestors and interfaces a class declares.
  Each declared list is assumed to be complete, that is, to include the
  ancestors of its ancestors.
