# relaxed-pattern-matcher, modelled in Dafny

`pattern-matcher.js` is a structural pattern matcher written in JavaScript.

- `pattern(fnPattern)` runs a builder callback. The callback receives a context with two members:
  - `sym(name)`, which hands out one fresh `Symbol()` per distinct name;
  - `$rest`.
- `pattern` then inverts the name-to-symbol map into a table from symbol to name. It returns a closure that runs `matcher` over that table, the built pattern and a subject.
- `matcher(symbols, pattern, obj)` dispatches on `typeof pattern`:
  - An array pattern matches element `i` against `obj[i]`.
  - An object pattern walks its own keys. Each key must satisfy `prop in obj`, and its value must match `obj[prop]`.
  - A registered symbol binds its name to the subject.
  - Every other pattern must be `===` to the subject.
- The results of the sub-patterns are folded by `reduce`:
  - the failure sentinel `undefined` short-circuits the fold;
  - two successes merge with `new Map([...acc, ...application])`.

The model has one module per concern:

| module | file | what it holds |
|---|---|---|
| `Values` | values.dfy | The JavaScript values a pattern or subject can be: undefined, null, booleans, integers, strings, symbols (as tokens), arrays, and plain objects with their own properties listed in own-key order. It also models property access: `k in v`, `v[k]`, and `v[i]` through the decimal spelling of `i`. |
| `Outcomes` | outcomes.dfy | The three results of a call: `Success(bindings)`, `Failure` (the `undefined` sentinel) and `TypeError` (the exception the code throws). It also holds the right-biased merge, one turn of the reduce (`Extend`), and a direct reading of a whole fold (`Combine`). |
| `Matcher` | matcher.dfy | `Match`, with the two folds written as prefix recursions (`MatchElements`, `MatchFields`), and the lemmas about its cases. |
| `Positions` | positions.dfy | A second, reduce-free account of what a successful match binds. Registered tokens are listed with their paths in traversal order. Each name is bound to the subject's part at the last path where it occurs. |
| `Instances` | instances.dfy | Filling a pattern's variables with values from an environment gives a subject that the pattern matches, and the match returns those values. |
| `Allocator` | allocator.dfy | `pattern`: `sym` as `Intern`, the inversion, the builder as a `Template` evaluated left to right, and the compiled closure. |
| `Scenarios` | examples.dfy | The scenarios of `pattern-matcher.test.js`, worked through the model. |

The model follows the code as written, which implements less than its tests expect:

- There is no rest capture. `$rest` is an ordinary unregistered symbol, compared by identity. As an object key `[$rest]`, it is a symbol key the subject must own.
- Repeated occurrences of a variable are not checked for agreement. The merge overwrites, so the last occurrence wins.
- A container pattern against a subject it cannot read throws rather than failing. This covers a non-empty array pattern against undefined or null, and a non-empty object pattern against any primitive. A `null` pattern throws whatever the subject is.

Several tests expect the behaviour the code does not implement. `Scenarios` states what the code gives instead, each lemma next to the test it answers.

## Model

| member | source | states |
|---|---|---|
| `Values.ParseIndexKey` | pattern-matcher.js:83 | The decimal spelling of every index reads back as that index. So `obj[ixArr]` addresses the property named by the index. |
| `Values.IndexKeyOfParse` | pattern-matcher.js:83 | Every property name that denotes an index is exactly that index's canonical spelling. This is the other half of the round trip. |
| `Values.ElementIsPropertyRead` | pattern-matcher.js:83 | On an array or object, `v[i]` reads the property named by `i`'s spelling. An array owns that property exactly when `i` is below its length. |
| `Values.Element` | pattern-matcher.js:83 | `obj[ixArr]` on an array or object reads the property named by the index's spelling. On a string it yields the one-character string at that index, and undefined past the end. Any primitive other than undefined, null and strings yields undefined. The matcher throws before reading undefined or null. |
| `Values.HasOwn` | pattern-matcher.js:117 | `prop in obj` holds only on objects. An array has exactly "length" and the index keys below its length. A plain object has exactly the keys it lists. |
| `Values.Get` | pattern-matcher.js:118 | `obj[prop]` gives undefined for a key the object does not own. An array's "length" is its length, and the key of index `i` gives element `i`. A plain object gives a value listed under the key. |
| `Values.ArrayProperties` | pattern-matcher.js:83-118 | An array owns "length" and the decimal spellings of its indices and nothing else. Reading "length" gives the length, and reading the spelling of `i` gives element `i`. |
| `Values.Lookup` | pattern-matcher.js:117-118 | A property is found exactly when some own property has the key, and the value found is one listed under that key. |
| `Outcomes.Merge` | pattern-matcher.js:88 | The merged map has the names of both sides. A name of the application keeps the application's value. A name only in the accumulator keeps the accumulator's value. |
| `Outcomes.Extend` | pattern-matcher.js:76-89 | One turn of the reduce succeeds exactly when both the accumulator and the application succeed, and then has the names of both. A failed accumulator is returned unchanged, and otherwise a failed application is returned. |
| `Outcomes.CombineSnoc` | pattern-matcher.js:75-91 | Folding the reduce's turns from the left gives the direct reading of the whole run: the first sub-result that is not a success, else the union of all bindings. |
| `Outcomes.CombineSuccess` | pattern-matcher.js:75-91 | A run succeeds exactly when every sub-result succeeds. |
| `Outcomes.CombineFirst` | pattern-matcher.js:76-86 | A run that does not succeed returns its first failing or throwing sub-result. |
| `Outcomes.ExtendAbsorbs` | pattern-matcher.js:76 | Once the accumulator has failed, a further turn leaves it unchanged. |
| `Matcher.Match` | pattern-matcher.js:59-157 | A successful match binds only names the table knows. |
| `Matcher.MatchElements` | pattern-matcher.js:75-91 | The array fold after any prefix binds only names the table knows. |
| `Matcher.MatchFields` | pattern-matcher.js:96-131 | The object fold after any prefix binds only names the table knows. |
| `Matcher.MatchToken` | pattern-matcher.js:136-140 | A registered token matches every subject and binds exactly its name to the whole subject. |
| `Matcher.MatchPrimitive` | pattern-matcher.js:143-153 | A scalar or unregistered-symbol pattern never throws. It succeeds exactly when it equals the subject, and then binds nothing. |
| `Matcher.MatchNullPattern` | pattern-matcher.js:96-97 | A `null` pattern throws for every subject. |
| `Matcher.MatchEmptyContainer` | pattern-matcher.js:74-131 | An empty array or object pattern succeeds with no bindings against every subject, undefined included. |
| `Matcher.ElementsOnNullish` | pattern-matcher.js:83 | Every non-empty prefix of the array fold throws against undefined or null. |
| `Matcher.MatchArrayOnNullish` | pattern-matcher.js:83 | A non-empty array pattern throws against undefined or null. |
| `Matcher.ElementsCombine` | pattern-matcher.js:75-91 | The array fold after `n` elements is the direct reading of the first `n` element results. |
| `Matcher.MatchArrayCombines` | pattern-matcher.js:75-91 | Against a readable subject, an array pattern gives the direct reading of its element-wise results. |
| `Matcher.MatchArraySucceeds` | pattern-matcher.js:74-91 | Against a readable subject, an array pattern succeeds exactly when each element `i` matches the subject's element `i`. |
| `Matcher.MatchArrayFirstMismatch` | pattern-matcher.js:76-86 | The first element that does not match decides the array's result, and no other offset is tried. |
| `Matcher.MatchArrayLocal` | pattern-matcher.js:83 | Two subjects that agree on the first `n` elements give the same result for an `n`-element pattern. |
| `Matcher.MatchArrayIgnoresTail` | pattern-matcher.js:75-91 | Subject elements beyond the pattern's length do not affect the result. There is no length check. |
| `Matcher.MatchArrayPadsUndefined` | pattern-matcher.js:83 | Positions missing from a short subject are read as undefined. |
| `Matcher.ElementsAbsorb` | pattern-matcher.js:76 | Once the array fold has failed or thrown, later elements leave it unchanged. |
| `Matcher.FieldsOnPrimitive` | pattern-matcher.js:117 | Every non-empty prefix of the object fold throws against a primitive subject. |
| `Matcher.MatchObjectOnPrimitive` | pattern-matcher.js:117 | A non-empty object pattern throws against every primitive subject, undefined and null included. |
| `Matcher.FieldsCombine` | pattern-matcher.js:96-131 | The object fold after `n` keys is the direct reading of the first `n` key results. |
| `Matcher.MatchObjectCombines` | pattern-matcher.js:96-131 | Against an object subject, an object pattern gives the direct reading of its key-wise results. |
| `Matcher.MatchObjectSucceeds` | pattern-matcher.js:96-131 | Against an object subject, an object pattern succeeds exactly when the subject owns every pattern key and each sub-pattern matches the subject's value there. |
| `Matcher.MatchObjectMissingKey` | pattern-matcher.js:117-121 | The first pattern key the subject lacks, after keys that all matched, makes the match fail. |
| `Matcher.MatchObjectFirstMismatch` | pattern-matcher.js:123-127 | The first owned key whose sub-pattern does not match decides the object's result. |
| `Matcher.MatchObjectLocal` | pattern-matcher.js:117-123 | Two subjects that agree on ownership and value at every pattern key give the same result. |
| `Matcher.MatchObjectIgnoresExtraKeys` | pattern-matcher.js:96-131 | Subject properties under keys the pattern does not mention do not affect the result. |
| `Matcher.StrictEquals` | pattern-matcher.js:151-153 | A primitive pattern never throws. It succeeds, with no bindings, exactly when the subject is `===` to it. |
| `Matcher.FieldsAbsorb` | pattern-matcher.js:99 | Once the object fold has failed or thrown, later keys leave it unchanged. |
| `Positions.MatchBindings` | pattern-matcher.js:75-140 | A successful match binds exactly what the reduce-free account collects. Each registered token reached contributes its name, bound to the subject's part at the token's path, and a later path overrides an earlier one. |
| `Positions.ElementBindings` | pattern-matcher.js:75-91 | The array fold's bindings after `n` elements are those collected from the tokens under the first `n` elements. |
| `Positions.FieldBindings` | pattern-matcher.js:96-131 | The object fold's bindings after `n` keys are those collected from the tokens under the first `n` keys. |
| `Positions.LeafBindings` | pattern-matcher.js:133-153 | A successful scalar or symbol pattern binds at most its own token's name, to the whole subject. |
| `Positions.TokenBindings` | pattern-matcher.js:136-153 | A successful symbol pattern binds exactly what the reduce-free account collects from its single occurrence. |
| `Positions.MatchBindingNames` | pattern-matcher.js:136-140 | On success, a name is bound exactly when some registered token of that name occurs in the pattern. |
| `Positions.MatchBindsLastOccurrence` | pattern-matcher.js:129 | On success, each name is bound to the subject's part at the last position where it occurs. A repeated variable keeps its last value. |
| `Positions.GatherLast` | pattern-matcher.js:88 | In the reduce-free account, a name is bound to the value at its last occurrence. |
| `Instances.LookupDistinct` | pattern-matcher.js:117-118 | When keys are distinct, reading a listed key finds the value listed under it. |
| `Instances.InstanceOwns` | pattern-matcher.js:117-118 | An instance of an object pattern owns every pattern key and holds there the instance of that key's sub-pattern. |
| `Instances.MatchInstance` | pattern-matcher.js:59-157 | A pattern with no `null` and with object keys listed in own-key order (hence distinct) matches every instance of itself. Every name it binds carries the environment's value, repeated variables included. |
| `Instances.ElementsInstance` | pattern-matcher.js:75-91 | Every prefix of the array fold succeeds on an instance and agrees with the environment. |
| `Instances.FieldsInstance` | pattern-matcher.js:96-131 | Every prefix of the object fold succeeds on an instance and agrees with the environment. |
| `Instances.InstanceBindings` | pattern-matcher.js:59-157 | Matching an instance binds exactly the names of the pattern's registered tokens, each to the environment's value. |
| `Allocator.Intern` | pattern-matcher.js:28-35 | `sym(name)` returns the token recorded for `name`. A known name changes nothing. A new name gets a token from the supply, one that no earlier name holds. Earlier allocations are kept. |
| `Allocator.InternIdempotent` | pattern-matcher.js:28-35 | Asking for the same name again returns the same token and allocates nothing. |
| `Allocator.InternValid` | pattern-matcher.js:28-35 | Allocation keeps every token distinct per name and newer than `$rest`. |
| `Allocator.InternDistinct` | pattern-matcher.js:28-35 | Two distinct names never receive the same token. |
| `Allocator.Invert` | pattern-matcher.js:42-45 | The inverted table has exactly the allocated tokens as keys. It maps each name's token back to that name, and each token to a name allocated that token. |
| `Allocator.Build` | pattern-matcher.js:41 | Running the builder never revises an allocation and keeps the registry valid. It turns lists into arrays and records into objects of the same length. |
| `Allocator.BuildItems` | pattern-matcher.js:41 | Building the first `n` items yields `n` values and keeps earlier allocations and validity. |
| `Allocator.BuildFields` | pattern-matcher.js:41 | Building the first `n` fields yields `n` properties and keeps earlier allocations and validity. |
| `Allocator.Fresh` | pattern-matcher.js:24-37 | The starting registry, with `$rest` taken and nothing allocated, is valid. |
| `Allocator.Compile` | pattern-matcher.js:22-53 | Every token in the compiled table is newer than `$rest`. So `$rest` and every symbol older than it stay unregistered. |
| `Allocator.BuildKey` | pattern-matcher.js:41 | A computed key `[sym(name)]` calls `sym` before the property's value is built and becomes that name's token as a symbol key. Any other key leaves the registry as it was. |
| `Allocator.BuildPlaces` | pattern-matcher.js:41 | The builder returns its template with each `sym(name)` replaced by the token finally allocated for `name`, `$rest` as itself, and literals and fixed keys as written. |
| `Allocator.CompilePlaces` | pattern-matcher.js:40-52 | The pattern the returned closure matches with is the template with its final allocations substituted. |
| `Allocator.BuildVars` | pattern-matcher.js:41 | The registered tokens the matcher visits in a built pattern are exactly the `sym` uses placed in the returned value, with their paths and names. A computed key or a dropped call contributes none. |
| `Allocator.CompileRegistersVariables` | pattern-matcher.js:22-53 | The compiled pattern's registered tokens, in traversal order, are exactly the `sym` uses placed in the returned value. |
| `Allocator.CompiledBindings` | pattern-matcher.js:51 | On success, the returned closure binds every name placed in value position, to the subject's part at the last place that name was placed. |
| `Allocator.CompiledBindsPlacedNames` | pattern-matcher.js:28-51 | On success, a name is bound exactly when some `sym` use of it is placed in the returned value. A name used only as a key, or only in a discarded call, is never bound. |
| `Allocator.ThenRegisters` | pattern-matcher.js:28-35 | A `sym(name)` call whose result is discarded still enters `name` in the table. |
| `Allocator.Run` | pattern-matcher.js:51 | Every name the returned closure binds is a name in the table it closes over. For a compiled pattern, that is a name the builder passed to `sym`. |
| `Scenarios.BobCompiles` | pattern-matcher.test.js:5-12 | The nested-object builder compiles to the expected pattern, with the table `{2 ↦ "name"}`. |
| `Scenarios.BobMatches` | pattern-matcher.test.js:13-19 | The nested-object pattern binds `name` to "James". |
| `Scenarios.NestedObject` | pattern-matcher.test.js:4-20 | End to end, `pattern` and then the subject gives `name ↦ "James"`. |
| `Scenarios.WrongName` | pattern-matcher.test.js:52-68 | A mismatching literal makes the match fail. |
| `Scenarios.ArrayRestCompiles` | pattern-matcher.test.js:23-27 | The builder `[sym("first"), $rest]` compiles to `[token 2, $rest]` with the table `{2 ↦ "first"}`: `$rest` is placed as itself and is not registered. |
| `Scenarios.ArrayRestIsNotCaptured` | pattern-matcher.test.js:22-31 | As written, the compiled closure fails against `["one","dos","drie"]`: `$rest` is compared with "dos". The test expects a capture. |
| `Scenarios.ObjectRestCompiles` | pattern-matcher.test.js:35-40 | The builder `{name: "Sarah", [$rest]: sym("deets")}` compiles to an object whose second key is the symbol `$rest` itself, with the table `{2 ↦ "deets"}`. |
| `Scenarios.ObjectRestIsNotCaptured` | pattern-matcher.test.js:34-50 | As written, the compiled closure fails against Sarah's record: the `[$rest]` key is a symbol key the subject lacks. The test expects a capture. |
| `Scenarios.TwiceCompiles` | pattern-matcher.test.js:72-77 | `{x: sym(name), y: sym(name)}` compiles to an object holding the same token under both keys, with the table `{2 ↦ name}`. |
| `Scenarios.TwiceMatches` | pattern-matcher.js:96-131 | That pattern against `{x: a, y: b}` succeeds and binds the name to `b`, whatever `a` is. |
| `Scenarios.RepeatedVariableOverwrites` | pattern-matcher.test.js:71-83 | As written, the compiled closure for `{x: sym("diff"), y: sym("diff")}` against `{x: 1, y: 2}` succeeds with `diff ↦ 2`. The test expects a failure. |
| `Scenarios.RepeatedVariableAgrees` | pattern-matcher.test.js:86-98 | The compiled closure for `{x: sym("same"), y: sym("same")}` against `{x: 1, y: 1}` gives the single entry `same ↦ 1`. |
| `Scenarios.OffsetCompiles` | pattern-matcher.test.js:105-110 | `["one", sym("second"), $rest]` compiles to `["one", token 2, $rest]` with the table `{2 ↦ "second"}`. |
| `Scenarios.NoOffsetSearch` | pattern-matcher.test.js:101-113 | Matching is positional: the compiled closure fails against `["badApple", "one", "dos", "drie"]` because the first element differs. |
| `Scenarios.MultipleObjectChildren` | pattern-matcher.test.js:116-132 | Three object children bind `first ↦ 5` and `second ↦ 2`. |
| `Scenarios.SpecificPattern` | pattern-matcher.test.js:149-170 | A pre-existing symbol is compared by identity, and extra keys are ignored. The result binds `first` and `second` to the two measures. |
| `Scenarios.ContainerAgainstUndefinedThrows` | pattern-matcher.test.js:173-185 | As written, both container patterns throw against undefined. The test expects failure without an error. |
| `Scenarios.PrototypeCompiles` | pattern-matcher.test.js:138-140 | The builder's braces form a block: `sym("constructor")` is called and discarded, so the pattern is undefined and the table is `{2 ↦ "constructor"}`. |
| `Scenarios.PrototypeScenario` | pattern-matcher.test.js:135-146 | Compiling that builder and running it against an object fails: undefined is not `===` to an object. |

## Left out

- Console output and the demo call at the top of the file (pattern-matcher.js:3-18, 47-49, 61-65). They print and compute nothing the result depends on.
- `filterNotInList` (pattern-matcher.js:55-57) and the local `$rest` of `matcher` (pattern-matcher.js:68). Neither is used.
- Rest capture and agreement between repeated variables. The code does not implement them: the TODOs at pattern-matcher.js:78-81 and 103-116 stand in for rest capture, and the merge overwrites. The model states what the code does instead.
- Lookup through the prototype chain. `prop in obj` also finds inherited properties, but the model reads key presence as own-property membership. Only arrays' "length" and indices are modelled as built in.
- Floating-point numbers, NaN, `bigint` and functions as values. Scalars are undefined, null, booleans, unbounded integers, strings and symbols. `===` on them is equality of the model's values.
- Sparse arrays, array properties other than indices and "length", and exotic objects such as class instances with accessors.
- String subjects are indexed per character of `seq<char>`. JavaScript indexes UTF-16 code units, which differs for characters outside the Basic Multilingual Plane.
- Values.Element: yields undefined on undefined and null, where `obj[ixArr]` throws. `Matcher.MatchElements` throws before reading either, so no match result depends on this.
- The insertion order of the returned `Map` and names that are not strings. `Bindings` is a `map<string, Value>`: nothing in the matcher or its callers reads the entries' order, and every `sym` call in the tests passes a string.
- The module's exports. The test file imports `$rest`, `failure` and `pattern` (pattern-matcher.test.js:1), but pattern-matcher.js exports nothing.
- Symbols that a builder creates itself, and literal symbols created after `pattern` is called. The model takes every literal symbol of a template to be older than `$rest` (`LiteralsBefore`).
- Computed keys other than `[sym(name)]` and `[$rest]`. A `Template` record gives any other key as a fixed `Key`.
- The order of a built object's own keys. `Reflect.ownKeys` lists integer-like keys first, then strings, then symbols, while a `Template` record lists its fields in the order the object will report them.
- `Obj` values whose fields are out of own-key order or repeat a key. JavaScript has no such objects. `Values.OwnKeyOrdered` states the order, but only `Instances.WellFormed` requires it: the matcher and the other lemmas hold for every `Obj`.
- Allocator.Compile: freshness of `Symbol()` is modelled by a counter starting at `first`, the first token not yet in use. Nothing models the global uniqueness of symbols beyond that supply.
