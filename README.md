# grind-mixins composition engine, in Dafny

This project models the mixin composition engine of `src/Mixin.js` and proves
properties about it. The engine's parts are:

- **A registry.** A static name-to-entry map filled by `buildChain` (class
  factories) and `buildMerge` (fragments of named members).
- **A schema front end.**
  - `register` and `structure` read a schema. Its keys are merge types, and
    each key holds a list of mixin references.
  - The schema front end turns each reference into a descriptor. A reference
    is an object or a string such as `"Name(a, b as c)"`.
  - `_overrideDependencies` rewrites dependency lists from the
    `key:[d1,d2],key2:[d3]` syntax.
- **The merge executor `_doMerge`.**
  - It checks a descriptor's `use` restrictions and collects its `x as y`
    aliases.
  - It narrows the keys.
  - It validates and installs each member as a dispatch wrapper around the
    member it replaces. This is how later merges layer over earlier ones.
- **The validator `_validateMethodUsage`.** A four-rule decision table.
- **The wrappers' call semantics and `through`.** `through` is a left fold of
  class factories over a base class.

Where the source updates state in place, the model does too:

- `Registry.MixinRegistry` holds the registry map.
- `Executor.Target` holds the members visible on the target class and on its
  `prototype`, inherited members included.
- The override rewriter, string-reference structuring, `_doMerge` and
  `structure` are loop methods.

Each method is proved equal to a specification function: `RewriteAll`,
`StructureString`, `ExpandAll`, `MergeAll` and `StructureSchema`. The lemmas
state the source's promises about those functions.

JavaScript values are a small datatype (`Values.Value`). Truthiness, `typeof`,
property reads and writes, `Object.keys` and conversion to a string are written
out explicitly. A user function is `Fn(id)`. What it returns is a parameter
`b: (id, args) -> value`, and a call is a trace of fragment ids plus the
returned value (`Dispatch.Run`). A thrown `TypeError` is `HostTypeError`. A
thrown `MixinError` is `Mixin(kind)`, one variant per message.

Behaviour of src/Mixin.js worth knowing:

- Structuring a string reference writes `use`, `usesPrototype` and the
  rewritten `logic` onto the registry entry itself (src/Mixin.js:131-141).
  `_doMerge` also writes the narrowed `keys` back to that entry
  (src/Mixin.js:187-189). So a later reference to the same name sees them.
- The "instance scope" is the class's `prototype`. It is selected only by a
  reference whose first key is `prototype` (src/Mixin.js:82-89).
  - A schema key `prototype` is an unknown merge type.
  - A string value under any other key is not resolved through the registry.
- A schema must be a non-null object. A callable schema member is refused like
  a missing one (src/Mixin.js:50).
- A `use` list written in parentheses is split on `,` without trimming
  (src/Mixin.js:132). A string reference `Name(h, w as a)` with a blank after
  the comma therefore reduces its second entry to ` w`. That is not a member,
  so the merge fails with "Invalid export" (`Merging.UntrimmedAliasRefused`).
  The same list without the blank installs `a` (`Merging.AliasRestriction`).
- A string under a first key other than `prototype` is not looked up in the
  registry: it is the body of an inline descriptor whose keys are its
  character indices (src/Mixin.js:81-108, `Schema.StringBodyIsInline`). The
  object references at test/grind-provider.js:42-43 have this shape.
  - `{ HuntWalkAsSlow: 'LandAnimal(hunt, walk as walkSlow)' }` becomes a
    descriptor whose logic is that string, and the registry is untouched.
  - `{ WaterTransition: 'WaterAnimal(transitionToLand)', overrideDepends: 'transitionToLand:[swim,walkSlow]' }`
    fails with "Invalid dependency override", because the string has no
    member `transitionToLand` (`Schema.OverrideOnStringBodyRefused`).
- The `action` the override rewriter builds for a plain function does not call
  that function (src/Mixin.js:158). A merged member of that kind returns
  `undefined` (`Merging.OverriddenFunctionRunsNothing`).

## Model

| member | source | states |
|---|---|---|
| Registry.MixinRegistry.constructor | src/Mixin.js:6 | The registry starts empty. |
| Registry.MixinRegistry.BuildChain | src/Mixin.js:17-29 | A name that already holds a truthy entry is refused with "already exists" and the registry is unchanged. Otherwise exactly that one name is bound to the mixin. A function passed alone is bound under its own name. |
| Registry.MixinRegistry.BuildMerge | src/Mixin.js:31-45 | A non-string name or a non-object fragment is refused. A taken name is refused. `null` throws. All three leave the registry unchanged. Otherwise exactly that one name is bound to `{name, keys, logic}`, where `keys` are the fragment's own keys and `logic` is the fragment. |
| Registry.RegisterTwiceScenario | test/errors.js:20-23 | Registering `Bird` twice: the first call succeeds and the second is refused with "already exists". |
| MergeTypes.OptionsOf | src/Mixin.js:8-15 | Each merge type's facets: only `mergeOver` overrides; the prepends are `before` and the appends `after`; only the awaited forms promisify. |
| MergeTypes.Lookup | src/Mixin.js:61 | A name is accepted exactly when it is one of the six table keys, and then it names that entry. |
| MergeTypes.KeyAcceptedIff | src/Mixin.js:59-63 | A schema key selects merge type t if and only if the key, with its trailing digits removed, is t's name. |
| MergeTypes.NumberedKey | src/Mixin.js:59 | Any merge type's name followed by digits (`merge2`) selects that type. |
| MergeTypes.MisspeltKeyRefused | test/errors.js:30-39 | `mergeOverr` and `merge2x` name no merge type. |
| MergeTypes.FacetsExclusive | src/Mixin.js:8-15 | No merge type both overrides and hooks, none is both before and after, and only hooks promisify. |
| Text.IndexOf | src/Mixin.js:124 | `indexOf` returns the first position where the separator occurs, or none when it occurs nowhere. |
| Text.Split | src/Mixin.js:132 | `split` gives at least one piece. Joining the pieces gives back the input, and no piece contains the separator. |
| Text.HasSpacedAsIff | src/Mixin.js:174 | The `/\sas\s/` test holds exactly when some position holds a blank, `as` and a blank. |
| Text.SplitJoin | src/Mixin.js:150 | Splitting undoes joining when no piece holds the separator's first character. |
| Text.StripTrailingDigits | src/Mixin.js:59 | `split(/\d+$/)[0]` is a prefix followed only by digits, and the prefix does not end in a digit. |
| Text.StripTrailingDigitsOf | src/Mixin.js:59 | Stripping the digits from `base + digits` gives `base`. |
| Values.GetIndex | src/Mixin.js:151 | An array or a string answers `length` with its length, and the index key `"i"` with its i-th element (a one-character string for a string). |
| Values.GetNonIndex | src/Mixin.js:151 | On an array or a string, any key other than `length` that holds a non-digit reads as `undefined` in the model. In the source, the names of `Array.prototype` and `String.prototype` members (`slice`, `map`, `toString`, …) read those members instead; see "## Left out". |
| Values.Set | src/Mixin.js:159-161 | Writing a property changes that property only, and keeps a record's key list exact. |
| Overrides.RewriteOne | src/Mixin.js:150-162 | One override group fails only with "Invalid dependency override" or a host `TypeError`. |
| Overrides.OverrideDependencies | src/Mixin.js:146-164 | The loop leaves exactly `RewriteAll` of the pieces: groups in order, stopping at the first failure, with earlier rewrites kept. |
| OverrideSyntax.RewriteGroups | src/Mixin.js:149-163 | On well-formed groups, each named entry gets its new dependencies and every other entry is unchanged. |
| OverrideSyntax.OverrideRoundTrip | src/Mixin.js:146-164 | Parsing the rendered string `k1:[a,b],k2:[c]` sets each named entry's `depends` to its list. A function becomes an `{action, depends}` pair and a record keeps its action. Nothing else changes. |
| OverrideSyntax.OverrideOfAbsentKey | src/Mixin.js:153-155 | Overriding an entry that `logic` lacks (it reads as `undefined` or `null`, as in the model any non-index key does on a string body, prototype member names aside) fails with "Invalid dependency override" and writes nothing. |
| OverrideSyntax.ParseRendered | src/Mixin.js:147 | Appending `,`, splitting on `],` and dropping empty pieces recovers the groups. |
| OverrideSyntax.ParsePiece | src/Mixin.js:150 | Splitting a group on `:[` and its list on `,` recovers the key and the dependencies. |
| Schema.StructureString | src/Mixin.js:122-144 | A resolved reference is the registry entry named before the `(`. An unregistered name fails with "not registered" and nothing else. Only that entry is written. A descriptor entry keeps its name and keys, gets the untrimmed `use` list when a `(` is present, is marked for the prototype scope when asked (never unmarked), and keeps the rewritten `logic` even when the override fails. The reference fails exactly when the override fails, with the override's failure. A chain entry is never written. |
| Schema.UseListIsWritten | src/Mixin.js:131-133 | `Name(a,b)` stores the untrimmed pieces as the entry's `use` and resolves to the entry. |
| Schema.ExpandAll | src/Mixin.js:67-75 | A successful expansion has one element per reference. |
| Schema.StructureMixinString | src/Mixin.js:122-144 | The method leaves the registry and result that `StructureString` describes. |
| Schema.StructureMixinObject | src/Mixin.js:81-120 | The method leaves the registry and result of `StructureObject`, whose cases `InlineReference`, `UnNestedReference`, `PrototypeReference`, `PrototypeStringReference` and `StringBodyIsInline` state. |
| Schema.StructureFound | src/Mixin.js:131-143 | The writes to a registered descriptor (the `use` list, the prototype mark, the override) leave the registry and result that `StructureString` describes. |
| Schema.StructureInline | src/Mixin.js:94-119 | For a body that is not a string under `prototype`, the steps (un-nesting, reading `use`, building the descriptor) leave the result of `StructureObject`, whose inline cases the reference lemmas state. |
| Schema.StructureBuilt | src/Mixin.js:111-119 | The registry is untouched. The reference fails exactly when an override is given and `RewriteAll` fails, with that failure. Otherwise the result is the built descriptor with its `logic` rewritten by the override (or kept when there is none) and marked for the prototype scope exactly when asked. |
| Schema.StructureObject | src/Mixin.js:81-120 | A null reference throws. Any reference other than a string under `prototype` leaves the registry untouched, and on success yields an inline descriptor marked for the prototype scope exactly when the first key is `prototype`. |
| Schema.InlineReference | src/Mixin.js:81-108 | `{ Name: body, use: U }` with a body that is not the un-nested shorthand and no override gives the descriptor named `Name`, with the body's own keys, the body as logic and `U` (or `undefined`) as `use`; the registry is untouched. |
| Schema.UnNestedReference | src/Mixin.js:94-108 | `{ Name: { action: fn, ... } }` gives a descriptor whose logic is the whole reference and whose keys are the reference's keys; its `use` is not read (only a mixin named `use` finds one). |
| Schema.PrototypeReference | src/Mixin.js:82-118 | `{ prototype: inner }` with an object `inner` gives the descriptor `inner` gives alone, marked for the prototype scope, or the same failure. |
| Schema.PrototypeStringReference | src/Mixin.js:82-92 | `{ prototype: 'Name(a)' }` is the string reference structured with the prototype flag and the outer `overrideDepends`. |
| Schema.StringBodyIsInline | src/Mixin.js:81-108 | A string under a first key other than `prototype` is not looked up: it is the logic of an inline descriptor whose keys are its character indices, and the registry is untouched. |
| Schema.OverrideOnStringBodyRefused | src/Mixin.js:111-113 | An override on a string body names a member the string lacks, so the reference fails with "Invalid dependency override" and the registry is untouched. For a key naming a `String.prototype` member (`slice`) the source reads that member instead; see "## Left out". |
| Schema.FinishInline | src/Mixin.js:111-119 | The override then the prototype mark leave the result `StructureBuilt` describes. |
| Schema.StructureMixin | src/Mixin.js:66-75 | The method leaves the registry and result of `StructureReference`. |
| Schema.StructureReference | src/Mixin.js:66-75 | The registry keeps its names and changes only for a string reference (bare or under `prototype`). A value that is neither an object nor a string, and only such a value, becomes `undefined`. A resolved string reference names a registered entry. |
| Schema.ExpandMixins | src/Mixin.js:67-75 | The `map` over references leaves exactly `ExpandAll`, stopping at the first failure. |
| Validator.ValidatorTable | src/Mixin.js:255-276 | A non-empty missing list fails first. Then an override of an absent member fails, a plain merge onto a present member fails, and a hook on an absent member fails. Every other case passes, and those are the only passing cases. |
| Merging.Resolve | src/Mixin.js:170-173 | An inline descriptor is itself. A registry name resolves to the entry's current descriptor, and a chain entry throws. A non-reference throws. |
| Merging.ReadRestriction | src/Mixin.js:173-178 | A non-matching entry is checked as written. A matching non-string throws. An alias is stored only for a string entry. |
| Merging.ScanUseReadable | src/Mixin.js:172-181 | The restriction filter completes if and only if every entry of the `use` list can be read (no non-string entry matches the `as` test). |
| Merging.ScanUseOffenders | src/Mixin.js:173-181 | The entries the filter keeps are exactly the readable entries whose reduced name is not a key, kept as written. |
| Merging.ScanUseAliasesCover | src/Mixin.js:174-177 | Every `x as y` entry leaves `x` in the `aliases` dictionary. |
| Merging.ScanUseAliasesSource | src/Mixin.js:174-177 | Every alias in the dictionary was stored by an `x as y` entry of the list. |
| Merging.FilterKeys | src/Mixin.js:187-189 | A key survives if and only if `use` names it or it was aliased. |
| Merging.FilterKeysInOrder | src/Mixin.js:187-191 | The surviving keys come out in `keys` order: the i-th filtered key is the key at the i-th surviving position of `keys`, which is the order they are installed in. |
| Merging.AllOffendersListed | src/Mixin.js:173-185 | When some `use` entries name no key, the merge of that element fails with an invalid-use error listing exactly those entries as written, and the registry and the target are unchanged. |
| Merging.MergeOne | src/Mixin.js:170-190 | The registry keeps its names. Only a registry element's own entry can change, and then only its `keys`. |
| Merging.KeysWrittenBack | src/Mixin.js:187-189 | A registry entry merged under an accepted non-empty `use` gets the filtered keys written back, so the next resolution of its name sees only them. |
| Merging.NonReferenceRefused | src/Mixin.js:170-173 | An element that is neither an object nor a string fails the merge with a type error and changes nothing. |
| Merging.Unmet | src/Mixin.js:200 | The missing dependents are exactly the dependencies whose member on the target is falsy. |
| Merging.ReadFragment | src/Mixin.js:198-201 | A non-object member installs as it is, and `null` throws. For a pair, the fragment is its `action`. Its missing list is exactly the unmet dependencies of a `depends` array (those falsy on the target), empty for a falsy `depends`, and a truthy non-array `depends` throws. |
| Merging.AbsentDependencyFails | src/Mixin.js:198-205 | A pair whose `depends` names a member the target lacks is refused with "missing dependents", listing the unmet dependencies (that one among them), whatever the merge type. |
| Merging.WrapByMergeType | src/Mixin.js:208-235 | `merge` installs the fragment itself, `mergeOver` the fragment over the old member, `prepend` and `awaitPrepend` a before-hook, and `append` and `awaitAppend` an after-hook; only the await forms wait. |
| Merging.InstallKey | src/Mixin.js:194-237 | A successful install adds or replaces only the installed name, which then holds a wrapper. |
| Merging.InstallKeysKeeps | src/Mixin.js:194-237 | A run of installs leaves every name that none of its keys installs (by alias or own name) as it was. |
| Merging.InstallKeysOnlyInstalled | src/Mixin.js:194-237 | A run of installs adds no name other than the installed names of its keys. |
| Merging.InstallKeysInstallsAll | src/Mixin.js:194-237 | After a successful run, every key's installed name holds a wrapper. |
| Merging.NoRollback | src/Mixin.js:170-238 | A failed pass is the state after the elements before the failing one (all merged), plus the failing element's partial work. |
| Merging.KeysBeforeFailureStay | src/Mixin.js:194-237 | A failing key loop keeps what the keys before the failing one installed, and the failing key installs nothing. |
| Merging.InstallWrapsPrevious | src/Mixin.js:198-206 | The new member wraps the member that held the name before. An override or hook installs exactly when that member was present (truthy). |
| Merging.RepeatedMergeRefused | src/Mixin.js:266-272 | A plain merge of a member cannot be repeated onto the result. |
| Merging.AliasRestriction | test/helpers/merge/MergeSchema.js:16 | `use: [h, 'w as a']` installs h and a (holding w's logic) and nothing else: w and the other member are not installed. |
| Merging.UntrimmedAliasRefused | src/Mixin.js:172-185 | `Name(h, w as a)` with a blank after the comma stores the untrimmed use list `[h, ' w as a']` on the registry entry (the split of line 132). The merge then fails with "Invalid export", listing the whole entry ` w as a`. |
| Merging.ReduceAliasEntry | src/Mixin.js:174-178 | An entry `x as y` is checked as `x` and stores the alias `y`. |
| Merging.PrependExtendsStack | src/Mixin.js:213-222 | A prepend merged over a stack of prepends extends it. Running it calls the latest fragment first and the original last, and returns the original's value. |
| Merging.AppendExtendsStack | src/Mixin.js:223-233 | An append extends the stack. Running it calls the original first, then the appends in merge order, and returns the original's value. |
| Merging.OverriddenFunctionRunsNothing | src/Mixin.js:158 | A function wrapped by a dependency override installs, once its dependencies are present, as a member that calls nothing and returns `undefined`. |
| Merging.UnmetNone | src/Mixin.js:200 | Nothing is missing when every dependency names a present member. |
| Executor.Target.Define | src/Mixin.js:208-236 | `defineProperty` replaces one member of the chosen scope and changes nothing else. |
| Executor.ScanRestrictions | src/Mixin.js:172-181 | The restriction filter loop gives exactly `ScanUse`. |
| Executor.InstallMember | src/Mixin.js:196-236 | One key's install writes the scope `InstallKey` computes. A failing key leaves the target unchanged. |
| Executor.InstallMembers | src/Mixin.js:194-237 | The key loop leaves the scope and failure of `InstallKeys`. The other scope is unchanged. |
| Executor.MergeMixin | src/Mixin.js:171-237 | One element leaves the registry, target and failure of `MergeOne`. |
| Executor.DoMerge | src/Mixin.js:166-240 | `_doMerge` leaves the registry, target and failure of `MergeAll`: elements in order, stopping at the first failure. |
| Registration.Entries | src/Mixin.js:58 | `Object.entries` pairs each own key with its value, in key order. |
| Registration.StructureEntry | src/Mixin.js:59-76 | An unknown type fails naming the stripped key, before any reference is read. A known type with a non-array list throws. Both leave registry and class unchanged. |
| Registration.StructureSchema | src/Mixin.js:57-58 | `Object.entries` of a nil schema throws. |
| Registration.RegisterSchema | src/Mixin.js:47-55 | A missing or non-object schema member fails with "missing mergeSchema method" and changes nothing. |
| Registration.MergeEntry | src/Mixin.js:59-76 | The body of the schema loop leaves the state of `StructureEntry`. |
| Registration.Structure | src/Mixin.js:57-79 | The loop over schema entries leaves the state of `StructureSchema`, stopping at the first failing entry. |
| Registration.Register | src/Mixin.js:47-55 | `register` leaves the state of `RegisterSchema`. |
| Registration.FluentSchema | src/Mixin.js:298-304 | The fluent schema has the one key, holding the list, or a lone reference wrapped in a list. |
| Registration.FluentMergeIsOneEntry | src/Mixin.js:298-304 | A fluent merge is exactly one schema entry under its merge type. |
| Registration.FluentMerge | src/Mixin.js:298-306 | `_merge` leaves the state of structuring that one-entry schema. |
| Registration.MisspeltSchemaRefused | src/Mixin.js:59-63 | A one-key schema keyed `mergeOverr` (the misspelt key of test/errors.js:33, without the `merge` key before it) fails with "Unknown merge type" and leaves registry and class unchanged. |
| Registration.PluralSchemaMissed | src/Mixin.js:47-52 | `register` with its default method name reads `mergeMixin`; a class that declares only `mergeMixins` (test/errors.js:31) is refused with "missing mergeSchema method" and nothing changes. |
| Dispatch.HookOrder | src/Mixin.js:213-234 | A hook runs fragment then previous (prepend), or previous then fragment (append), each once, and returns the previous implementation's value. This holds for the awaited forms too. |
| Dispatch.OverridePassesPrevious | src/Mixin.js:211-212 | An override calls the fragment once, with the previous implementation before the arguments, and returns its result. |
| Dispatch.PlainIsFragment | src/Mixin.js:209-210 | A plain merge behaves as its fragment. |
| Dispatch.StackedPrepends | src/Mixin.js:213-222 | Stacked prepends run last-installed first, then the original, whose value is returned. |
| Dispatch.StackedAppends | src/Mixin.js:223-233 | Stacked appends run after the original in installation order, and the original's value is returned. |
| Chains.Transformer | src/Mixin.js:286-292 | A reference stands for a function only if it is one, after a string is looked up once in the registry. |
| Chains.ThroughSplits | src/Mixin.js:285-295 | Chaining `xs + ys` is chaining `ys` from the result of `xs`, and a failure in `xs` stays. |
| Chains.ThroughThree | test/through.js:46-71 | `through(A, B, C)` on T is `C(B(A(T)))`. |
| Chains.ThroughResolvesNames | src/Mixin.js:287-289 | A string reference behaves as what the registry holds under that name. |
| Chains.ThroughRefusesNonFunction | src/Mixin.js:291-293 | A reference that is not a function after resolution fails with a mixin error, and later steps do not run. |
| Chains.MissingNameRefused | test/errors.js:69-73 | A name nobody registered is refused with a mixin error. |

## Left out

- `mix` from `./Mix` (src/Mixin.js:3, 7). Mix.js is not part of this model.
- `src/MixinError.js` is not part of this model. Errors are the `Errors.MixinError` kinds, without message text.
- Real Promises. `awaitPrepend` and `awaitAppend` are the same ordered two-step trace as their synchronous forms, and only the `awaited` flag records them.
- The receiver `this` and `bind`. A fragment's result depends only on its id and arguments.
- JavaScript reflection.
  - A scope map stands for property lookup on the class or its `prototype`, inherited members included.
  - `defineProperty` is a map update.
  - Property descriptors, symbols and getters are not modelled.
- Prototype members of objects, arrays and strings (`toString`, `constructor`, `valueOf`, `slice`, `map`, `split`, …). `Values.Get` reads own properties, array and string indices and `length` only. An override naming such a member therefore behaves differently:
  - On a string body, `slice:[x]` fails in the model with "Invalid dependency override". The source finds `String.prototype.slice`, builds the `{action, depends}` pair and then throws a `TypeError` when it assigns it to the string (src/Mixin.js:151-159).
  - On an object body, `toString:[a]` fails in the model. The source wraps `Object.prototype.toString` and succeeds (src/Mixin.js:151, 157-159).
- Inherited properties of the `aliases` dictionary (`constructor`, `toString`). The model reads own entries only.
- Inherited properties of the registry object. `this.mixins` is a `{}`, so `this.mixins['constructor']` and `this.mixins['toString']` find `Object.prototype`'s members. The model's registry lookups (`Registry.Taken`, `Schema.Unregistered`, `Chains.Transformer`) read own entries only: there `buildMerge('constructor', …)` is accepted and the string reference `'toString'` is unregistered, while the source refuses the first with "already exists" and resolves the second to a function.
- Named properties on functions and arrays. Writing `depends` onto an array member, or `use` or `usesPrototype` onto a `buildChain` entry that is a function or an array, is a no-op in the model (`Schema.MarkChain`).
- Non-integer numbers. `Num` is an integer.
- A function's source text. `String(f)` is the placeholder `"function"`.
- Resolve: a registry entry built by `buildChain` that is used as a merge reference is treated as a `TypeError`. This holds even for an object that happens to carry `keys` and `logic`.
- Inline references are values. A later write to the user's fragment object through another reference is not shared.
- Schema.StructureObject: the descriptor it builds for an object reference does not share identity with the user's fragment object.
- The fluent builder's return value (`this` or the parent class) and its `AndDeclare` variants. Only the `_merge` step is modelled.
- `buildChain('', f)` is accepted by the source, although test/errors.js:21 expects it to throw. The model follows the source.
- Registration.StructureSchema: its own contract states only the nil-schema case. The schema loop is tied to it by `Registration.Structure`, and its per-entry behaviour is stated by `Registration.StructureEntry`.
- Registration.RegisterSchema: states the failure direction only. A present object schema is handed to `StructureSchema`, which `Registration.Register` states.
- Schema.ExpandAll: its own contract gives only the length of a successful expansion. The per-reference behaviour is in `Schema.StructureString` and the methods that equal it.
- Overrides.RewriteOne: its own contract gives only the failure kinds. The effect of a well-formed group is stated by `OverrideSyntax.RewriteGroups`.
