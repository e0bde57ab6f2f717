# egg-ts-helper core, modelled in Dafny

egg-ts-helper generates TypeScript declaration files (`.d.ts`) for an Egg.js
application. A **Watcher** watches one application directory, for example
`app/controller`. It collects the changed paths behind a throttle timer and
runs a **generator** for them. The generator writes an interface that maps
file paths to the types those files export.

This project models three parts of that core:

- the string helpers of `utils.js`:
  - `formatProp` and `camelProp`;
  - `getModuleObjByPath`, which turns a path into property names and a
    module name;
  - `getImportStr`, which writes the import line;
  - `strToFn`, the `{{ n }}` template helper;
  - the `.js`-shadowed-by-`.ts` filter of `loadFiles`;
  - `findExportNode`, which finds what a module exports. It works over a
    datatype of root statements;
- the Watcher of `watcher.js`:
  - the option merge of `init`;
  - the de-duplicating throttle stack of `onChange`;
  - the last-in first-out drain when the timer fires;
  - `execute`, `destroy` and `watch`;
- the default `class` generator of `generators/class.js`:
  - the collector walk that builds the nested interface map;
  - the module-level `TC<n>` counter;
  - the `declareTo` mount;
  - `composeInterface`, which renders the map as TypeScript.

Files:

- `js_text.dfy` (module `JsText`) holds shared vocabulary:
  - JavaScript-like values: `Option`, `Result`, ASCII case mapping;
  - `String(n)` for naturals, and which keys `Object.keys` treats as array
    indices;
  - generic sequence lemmas.
- `utils.dfy` (module `Utils`).
- `export_resolver.dfy` (module `ExportResolver`).
- `class_generator.dfy` (module `ClassGenerator`).
- `watcher.dfy` (module `Watch`).

Things the code does that a reader might not expect. The model follows the
code in each case:

- `execute` builds the generator's config with `Object.assign`, and the
  `fileList` getter is one of the copied properties. `Object.assign` reads
  every property it copies, so the getter runs when the config is built and
  the generator receives a plain list. The model computes the list eagerly.
- `Object.keys` returns keys that look like array indices (`"0"`, `"12"`)
  first, in ascending numeric order, and every other key in insertion order.
  `composeInterface` renders in that order. So a directory named `2` is
  rendered before one named `1a` even if it was inserted later.
- `camelProp("", 'lower')` and `camelProp("", 'upper')` throw a TypeError,
  because they call `toLowerCase` or `toUpperCase` on `undefined`. With
  `'camel'` it returns the string `"undefined"`.
- `camelProp` with a non-function style is not idempotent. `"a.-b"` becomes
  `"a.B"`, and that becomes `"aB"`.
- In `strToFn`, a placeholder index is looked up as a property name. So
  `{{01}}` gives `"undefined"` even when there are two arguments.
- `init` decides which generator to load from `options.generator || 'class'`.
  The merged options, however, keep the caller's own falsy `generator`
  value.
- `destroy` closes the fs watcher but does not clear the field. A later
  `watch` closes the same watcher again.
- `export default <declaration>` records the whole statement as the default
  export. `exports.x <op> e` records the binary expression whatever `<op>`
  is.
- An identifier default that names no cached binding ends as `undefined`
  only if the cache is still non-empty at that turn; if the cache is empty,
  the default stays that identifier. So `const x = y; export default x`
  with `y` unbound exports the identifier `y`, while adding an unrelated
  `const z = 1` makes it export nothing. Chasing stops when the cache is
  empty, so a cycle of aliases ends on an identifier.
- `declareTo` with a single segment (`"Foo"`) folds the one-element array
  to the bare interface name, a string. `Object.keys` of a string lists its
  character indices, so the mount interface gets one member per character
  (`0: T;`, `1: C;`, …).
- The `TC<n>` counter advances only when content is produced and no
  `interface` option is given.

## Model

| member | source | states |
|---|---|---|
| Utils.FormatProp | node_modules/egg-ts-helper/dist/utils.js:321-323 | The result is never longer than the input and is empty exactly when the input is. |
| Utils.FormatPropFixedPoint | node_modules/egg-ts-helper/dist/utils.js:321-323 | `formatProp` leaves a string unchanged if and only if no delimiter `.`, `_` or `-` is directly followed by an ASCII letter. |
| Utils.FormatPropShortens | node_modules/egg-ts-helper/dist/utils.js:321-323 | If there is a match, the result is strictly shorter. |
| Utils.FormatPropAppend | node_modules/egg-ts-helper/dist/utils.js:321-323 | `formatProp` distributes over concatenation unless the join creates a new match. |
| Utils.FormatPropSplice | node_modules/egg-ts-helper/dist/utils.js:321-323 | Wherever a delimiter is followed by a letter, the pair becomes that letter upper-cased, and the text on either side is formatted on its own. |
| Utils.FormatPropIdempotent | node_modules/egg-ts-helper/dist/utils.js:321-323 | Applying `formatProp` twice equals applying it once, if and only if the input has no delimiter run such as `.-b`. |
| Utils.CamelProp | node_modules/egg-ts-helper/dist/utils.js:326-347 | A function style replaces the whole result. Error if and only if the property is empty and the style is lower or upper. Camel gives `"undefined"` for the empty string and `formatProp` otherwise. Only the first character can differ from `formatProp`, and upper or lower makes it so. For lower and upper the first character is exactly `toLowerCase` or `toUpperCase` of the formatted first character. |
| Utils.CamelPropIdempotent | node_modules/egg-ts-helper/dist/utils.js:326-347 | If there is no delimiter run, a second `camelProp` with the same style changes nothing. |
| Utils.CamelPropNotIdempotentExample | node_modules/egg-ts-helper/dist/utils.js:321-347 | `"a.-b"` becomes `"a.B"` and then `"aB"`, so `camelProp` is not idempotent in general. |
| Utils.SplitThenJoin | node_modules/egg-ts-helper/dist/utils.js:169 | Joining the parts of `split('/')` gives back the string, and no part contains the separator. |
| Utils.JoinThenSplit | node_modules/egg-ts-helper/dist/utils.js:169 | Splitting a join of separator-free parts gives back the parts. |
| Utils.UpperNames | node_modules/egg-ts-helper/dist/utils.js:171 | Every segment is upper-cased by `camelProp`. Error if and only if some segment is empty. |
| Utils.GetModuleObjByPath | node_modules/egg-ts-helper/dist/utils.js:168-176 | The props rejoin to the path without its extension and contain no `/`. Error if the path has no `.` or some segment is empty. The module name is the concatenation of the upper-cased segments. |
| Utils.NormalizeSeparators | node_modules/egg-ts-helper/dist/utils.js:136 | Every backslash becomes `/` and every other character stays in place; this is also the replace applied to the watch glob (watcher.js:48-50). |
| Utils.GetImportStr | node_modules/egg-ts-helper/dist/utils.js:134-142 | The line starts with `import ` and ends with `;`; GetImportStrRoundTrip recovers each of its parts. |
| Utils.GetImportStrRoundTrip | node_modules/egg-ts-helper/dist/utils.js:134-142 | Parsing the produced import line recovers the module name, the extension-less relative path, the `* as ` form (only for `.ts` with `importStar`) and the `from` versus `= require(...)` form. |
| Utils.StrToFn | node_modules/egg-ts-helper/dist/utils.js:115-122 | A string becomes the placeholder substitution, a function is kept, and no handle gives none. |
| Utils.Substitute | node_modules/egg-ts-helper/dist/utils.js:117 | A template without `{` is returned unchanged; the placeholder cases are the lemmas below. |
| Utils.SubstitutePlaceholder | node_modules/egg-ts-helper/dist/utils.js:117 | A match of `{{\s*(\d+)\s*}}` is replaced by the argument at that index, and scanning resumes after it. |
| Utils.SubstituteOnePlaceholder | node_modules/egg-ts-helper/dist/utils.js:117 | `p{{ 0 }}q` with one argument `v` gives `pvq`. |
| Utils.SubstituteWrapsLeaf | node_modules/egg-ts-helper/dist/utils.js:117 | The documented handle `AutoInstanceType<typeof {{ 0 }}>` wraps the module name. |
| Utils.SubstituteLeadingZero | node_modules/egg-ts-helper/dist/utils.js:117 | `{{01}}` looks up property `"01"`, which is not an array index, so it gives `"undefined"`. |
| Utils.KeepFiles | node_modules/egg-ts-helper/dist/utils.js:60-64 | A file is kept if and only if it is not a `.js` whose `.ts` sibling is listed. Kept files keep their multiplicity. |
| Utils.KeepFilesInOrder | node_modules/egg-ts-helper/dist/utils.js:60-64 | The kept files are a subsequence of the input. |
| Utils.LoadFilesFilter | node_modules/egg-ts-helper/dist/utils.js:60-64 | A file survives the filter if and only if it is not a `.js` file whose `.ts` sibling is in the list, and the survivors keep their order. |
| Utils.LoadFilesFilterSpec | node_modules/egg-ts-helper/dist/utils.js:56-64 | The filter keeps order, keeps exactly the unshadowed files, and is idempotent. |
| ExportResolver.DeclarationNodes | node_modules/egg-ts-helper/dist/utils.js:208-209 | Each declarator of an exported variable statement is pushed, in order. |
| ExportResolver.CacheDeclarators | node_modules/egg-ts-helper/dist/utils.js:216-223 | The cache gains exactly the identifier names that have an initializer; every name the list does not declare keeps its entry. |
| ExportResolver.CacheDeclaratorsLastWins | node_modules/egg-ts-helper/dist/utils.js:216-223 | A declared name maps to the initializer of the last declarator that declares it. |
| ExportResolver.CacheDeclaratorsIgnoresCache | node_modules/egg-ts-helper/dist/utils.js:216-223 | What the list stores under a name it declares does not depend on the cache before it. |
| ExportResolver.CacheUpdate | node_modules/egg-ts-helper/dist/utils.js:216-227 | The cache gains exactly the names the statement binds. Each maps to what the statement binds to it: the last initializer, the function or class declaration itself, or the right-hand side of an assignment. Every other entry is unchanged. |
| ExportResolver.Visit | node_modules/egg-ts-helper/dist/utils.js:200-255 | One root statement adds its bindings to the cache, appends its named exports to the list, and replaces the default only if it sets one. |
| ExportResolver.ScanExports | node_modules/egg-ts-helper/dist/utils.js:196-256 | The export list is the concatenation, in statement order, of what each root statement contributes. |
| ExportResolver.ExportsOfAppend | node_modules/egg-ts-helper/dist/utils.js:196-256 | The export list of concatenated statements is the concatenation of their export lists. |
| ExportResolver.LastDefaultWins | node_modules/egg-ts-helper/dist/utils.js:201-246 | The default export before chasing is the one set by the last statement that sets one. |
| ExportResolver.NoDefaultStatement | node_modules/egg-ts-helper/dist/utils.js:201-246 | Without such a statement there is no default. |
| ExportResolver.ScanCacheKeys | node_modules/egg-ts-helper/dist/utils.js:216-227 | A name is cached if and only if some root statement binds it. |
| ExportResolver.LastBindingWins | node_modules/egg-ts-helper/dist/utils.js:216-227 | A name's cache entry after the pass is what the last root statement binding it bound to it. |
| ExportResolver.ChaseStep | node_modules/egg-ts-helper/dist/utils.js:257-261 | One turn takes as default the cached value of the name, or none when the name is not cached. It deletes exactly that name and leaves the other entries alone. |
| ExportResolver.ChaseStepDecreases | node_modules/egg-ts-helper/dist/utils.js:257-261 | Each turn shrinks the cache, so the loop terminates. |
| ExportResolver.Chase | node_modules/egg-ts-helper/dist/utils.js:257-261 | The chase ends on a non-identifier, no default, or an identifier with an empty cache, and does nothing when it cannot start. The final default is the original one or a cached value. The remaining cache is a restriction of the original. |
| ExportResolver.ChaseStepsBounded | node_modules/egg-ts-helper/dist/utils.js:257-261 | The loop runs at most as many times as there are cached names. |
| ExportResolver.MissingAliasGivesNothing | node_modules/egg-ts-helper/dist/utils.js:257-261 | An identifier default that names no cached binding, while the cache is non-empty, ends as no default. |
| ExportResolver.UncachedAliasDependsOnOtherBindings | node_modules/egg-ts-helper/dist/utils.js:257-261 | With `x` aliased to an uncached `y`, the default ends as the identifier `y` when nothing else is cached, and as no default when one unrelated entry is cached. |
| ExportResolver.AliasResolvesToValue | node_modules/egg-ts-helper/dist/utils.js:257-261 | An identifier default whose cached value is not an identifier resolves to that value. |
| ExportResolver.AliasChainStep | node_modules/egg-ts-helper/dist/utils.js:257-261 | Chasing `x` where `x` is cached as identifier `y` equals chasing `y` with `x` removed from the cache, so alias chains are followed link by link, each link used at most once. |
| ExportResolver.PushDeclarations | node_modules/egg-ts-helper/dist/utils.js:208-209 | The loop appends the declarators to the export list. |
| ExportResolver.CacheDeclarations | node_modules/egg-ts-helper/dist/utils.js:218-222 | The loop's cache equals the declarator cache of the specification. |
| ExportResolver.VisitAssignment | node_modules/egg-ts-helper/dist/utils.js:232-255 | Assignments to `exports.x`, to `module.exports` and to an identifier each update the state as the specification's visit does. |
| ExportResolver.VisitRoot | node_modules/egg-ts-helper/dist/utils.js:200-255 | One root statement updates the state as the specification's visit does. |
| ExportResolver.FindExportNode | node_modules/egg-ts-helper/dist/utils.js:191-266 | The result equals the scan-then-chase specification, and the export list is the concatenation of each statement's exports. |
| ExportResolver.AliasedObjectLiteral | node_modules/egg-ts-helper/dist/utils.js:216-261 | `const x = {...}; export = x` exports the object literal as default. |
| ExportResolver.ReassignedThenExported | node_modules/egg-ts-helper/dist/utils.js:216-261 | `let y; y = 5; module.exports = y` exports `5`. |
| ExportResolver.TwoExportsMembers | node_modules/egg-ts-helper/dist/utils.js:237-240 | Two `exports.x = …` statements give two named exports in order and no default. |
| ExportResolver.CyclicAliasStops | node_modules/egg-ts-helper/dist/utils.js:257-261 | The cycle `a = b; b = a; export = a` stops on the identifier `a` once the cache is empty. |
| ClassGenerator.Keys | node_modules/egg-ts-helper/dist/generators/class.js:75 | The own keys of an object in creation order, the list that `Object.keys` starts from before array-index keys are moved first; `SetKey`, `Insert` and `KeyOrderSpec` are stated over it. |
| ClassGenerator.FindKey | node_modules/egg-ts-helper/dist/generators/class.js:30-33 | Returns the first position holding the key, or -1 when it is absent. |
| ClassGenerator.SetKey | node_modules/egg-ts-helper/dist/generators/class.js:30-33 | `collector[name] = v`: a new key goes last and an existing key keeps its place. The key then maps to `v`, no other key changes, and keys stay distinct. |
| ClassGenerator.Insert | node_modules/egg-ts-helper/dist/generators/class.js:26-35 | The walk fails if and only if it would have to descend through a non-empty type name already stored at a proper prefix of the path (an empty string is falsy and replaced by `{}`). On success the top-level keys gain the first name if it was new, and every other top-level key is unchanged. |
| ClassGenerator.InsertThenLookup | node_modules/egg-ts-helper/dist/generators/class.js:26-35 | After the walk, following the path reaches the module name. |
| ClassGenerator.InsertKeepsOtherPaths | node_modules/egg-ts-helper/dist/generators/class.js:26-35 | Every path that branches off the walked path at any depth leads to what it led to before the walk. |
| ClassGenerator.InsertOverwrites | node_modules/egg-ts-helper/dist/generators/class.js:26-35 | Walking the same path twice equals walking it once with the second module name. |
| ClassGenerator.SetKeyTwice | node_modules/egg-ts-helper/dist/generators/class.js:30-33 | Assigning a key twice equals assigning it once with the last value. |
| ClassGenerator.InsertWellFormed | node_modules/egg-ts-helper/dist/generators/class.js:26-35 | The walk keeps every level's keys distinct. |
| ClassGenerator.PartitionEntries | node_modules/egg-ts-helper/dist/generators/class.js:75 | Index-like keys and named keys together make up the entries. |
| ClassGenerator.SortAscending | node_modules/egg-ts-helper/dist/generators/class.js:75 | Sorting the index-like keys gives an ascending permutation. |
| ClassGenerator.KeyOrderSpec | node_modules/egg-ts-helper/dist/generators/class.js:75 | The `Object.keys` order is a permutation of the entries. Index-like keys come first, in ascending numeric order, and named keys keep insertion order. |
| ClassGenerator.KeyOrderMembers | node_modules/egg-ts-helper/dist/generators/class.js:75 | The ordering neither drops nor invents entries. |
| ClassGenerator.KeyOrderNoIndices | node_modules/egg-ts-helper/dist/generators/class.js:75 | With no index-like keys, the order is insertion order. |
| ClassGenerator.NamedEntriesIdempotent | node_modules/egg-ts-helper/dist/generators/class.js:75 | Selecting named keys twice is selecting them once. |
| ClassGenerator.LeafLine | node_modules/egg-ts-helper/dist/generators/class.js:77-78 | A string leaf renders as one non-empty line ending in a newline. |
| ClassGenerator.RenderObjectEmpty | node_modules/egg-ts-helper/dist/generators/class.js:75-87 | An object renders as empty text if and only if it contains no string leaf at any depth. |
| ClassGenerator.RenderEntriesEmpty | node_modules/egg-ts-helper/dist/generators/class.js:75-86 | A list of entries renders as empty text if and only if none of them contains a leaf. |
| ClassGenerator.RenderChain | node_modules/egg-ts-helper/dist/generators/class.js:68-86 | A chain of keys ending in a leaf renders as nested `key: {` blocks around one `key: leaf;` line. |
| ClassGenerator.RenderNested | node_modules/egg-ts-helper/dist/generators/class.js:80-84 | A non-empty nested object renders as `key: {`, its body indented two more spaces, then `}`. |
| ClassGenerator.RenderExample | node_modules/egg-ts-helper/dist/generators/class.js:56-88 | `{a: {b: x}, c: y}` wrapped as `T` renders as the expected five-line interface. |
| ClassGenerator.StringArray.constructor | node_modules/egg-ts-helper/dist/generators/class.js:43 | The array holds the given items. |
| ClassGenerator.StringArray.Pop | node_modules/egg-ts-helper/dist/generators/class.js:69-71 | `pop` removes and returns the last item. |
| ClassGenerator.FoldChain | node_modules/egg-ts-helper/dist/generators/class.js:68-74 | Folding the array right to left empties it and yields the nested chain `{a: {b: 'c'}}`. |
| ClassGenerator.ComposeInterface | node_modules/egg-ts-helper/dist/generators/class.js:56-88 | The rendering equals the specification's `Compose`. An array argument is consumed (left empty) and rendered as its chain. |
| ClassGenerator.ComposeEntries | node_modules/egg-ts-helper/dist/generators/class.js:75-86 | The keys loop accumulates the specification's rendering of the object. |
| ClassGenerator.ComposeMember | node_modules/egg-ts-helper/dist/generators/class.js:76-85 | One key renders as the specification's member rendering. |
| ClassGenerator.Compose | node_modules/egg-ts-helper/dist/generators/class.js:56-88 | With a wrapper name the text opens with `interface <name> {` at the given indent and closes with `}` at that indent; RenderExample shows a whole rendering. |
| ClassGenerator.CasedPath | node_modules/egg-ts-helper/dist/generators/class.js:27-28 | Every segment goes through `camelProp`. The result is an error if and only if some segment fails. |
| ClassGenerator.CollectFile | node_modules/egg-ts-helper/dist/generators/class.js:21-35 | One file fails if and only if its path cannot be cased or the walk would descend through a type name. On success its cased path leads to `Export<Module>`. |
| ClassGenerator.Collect | node_modules/egg-ts-helper/dist/generators/class.js:20-36 | A successful collection has derived and cased the path of every file. |
| ClassGenerator.CollectFiles | node_modules/egg-ts-helper/dist/generators/class.js:20-36 | The loop over the file list equals the `Collect` specification. |
| ClassGenerator.CollectErrPersists | node_modules/egg-ts-helper/dist/generators/class.js:20-36 | Once a file fails, the whole collection fails with that error. |
| ClassGenerator.CollectFailsOnBadPath | node_modules/egg-ts-helper/dist/generators/class.js:21-28 | A file whose path has an empty segment makes the generator fail. |
| ClassGenerator.CollectImports | node_modules/egg-ts-helper/dist/generators/class.js:21-24 | The import text is exactly one import line per file, in file order. |
| ClassGenerator.CollectLastImport | node_modules/egg-ts-helper/dist/generators/class.js:21-24 | The last file's import line, named `Export<Module>`, ends the import text. |
| ClassGenerator.CollectWellFormed | node_modules/egg-ts-helper/dist/generators/class.js:20-36 | The collected interface map has distinct keys at every level. |
| ClassGenerator.LastFileVisible | node_modules/egg-ts-helper/dist/generators/class.js:26-35 | Following the last file's cased path in the map reaches its module name. |
| ClassGenerator.EarlierFileVisible | node_modules/egg-ts-helper/dist/generators/class.js:20-36 | An earlier file's type stays reachable under its cased path when every later file's path branches off it. |
| ClassGenerator.WriteContent | node_modules/egg-ts-helper/dist/generators/class.js:40-52 | The text equals the content specification: imports, then `declare module '<framework>'`, then the optional `declareTo` block, then the interface. |
| ClassGenerator.Generator.constructor | node_modules/egg-ts-helper/dist/generators/class.js:7 | The counter starts at 100. |
| ClassGenerator.GenerateSpec | node_modules/egg-ts-helper/dist/generators/class.js:9-53 | The generator fails if and only if the file list is non-empty and collection fails. Its output always names `index.d.ts` under the typings directory and has content exactly when the list is non-empty. The counter advances by at most one. |
| ClassGenerator.Generator.Generate | node_modules/egg-ts-helper/dist/generators/class.js:9-53 | The output and the new counter equal the generator specification applied to the old counter. |
| ClassGenerator.EmptyFileList | node_modules/egg-ts-helper/dist/generators/class.js:13-15 | An empty file list gives only `dist` and leaves the counter alone. |
| ClassGenerator.CounterAdvances | node_modules/egg-ts-helper/dist/generators/class.js:38 | The counter advances by one exactly when content is produced without an `interface` option. |
| ClassGenerator.InventedNamesDistinct | node_modules/egg-ts-helper/dist/generators/class.js:38 | Without an `interface` option, different counter values name the interface differently. |
| ClassGenerator.DeclareToExample | node_modules/egg-ts-helper/dist/generators/class.js:40-44 | `declareTo: 'app.foo'` mounts the interface as `interface app { foo: <name>; }`. |
| ClassGenerator.DeclareToSingleSegment | node_modules/egg-ts-helper/dist/generators/class.js:40-44 | A `declareTo` without a dot mounts the interface name as a string. The mount interface then lists that name's characters, one member per position. |
| ClassGenerator.RenderCharsExample | node_modules/egg-ts-helper/dist/generators/class.js:68-78 | The string `TC` renders as the members `0: T;` and `1: C;`. |
| Watch.GeneratorName | node_modules/egg-ts-helper/dist/watcher.js:21 | The generator name is truthy. It is the caller's option when truthy and `'class'` otherwise. |
| Watch.MergeOptions | node_modules/egg-ts-helper/dist/watcher.js:25 | The merged keys are the built-in, generator-default and caller keys. Each value comes from the caller if set, else from the generator's `defaultConfig`, else from the built-ins. |
| Watch.MergeKeys | node_modules/egg-ts-helper/dist/watcher.js:25 | The merged options have exactly the four built-in keys, the caller's keys and the generator's default keys. |
| Watch.CallerOptionsWin | node_modules/egg-ts-helper/dist/watcher.js:25 | A caller option overrides everything. |
| Watch.DefaultConfigComesNext | node_modules/egg-ts-helper/dist/watcher.js:25 | The generator's default config overrides the built-ins. |
| Watch.BuiltInsFillTheRest | node_modules/egg-ts-helper/dist/watcher.js:25 | Otherwise the values are `watch: true`, `pattern: '**/*.(ts\|js)'`, `trigger: ['add', 'unlink']` and `generator: 'class'`. |
| Watch.FalsyGeneratorIsKept | node_modules/egg-ts-helper/dist/watcher.js:21-25 | A falsy caller `generator` loads `'class'` but stays falsy in the merged options. |
| Watch.LoadFiles | node_modules/egg-ts-helper/dist/utils.js:56-64 | The files are the glob's matches for the pattern, or for `**/*.(js|ts)` when the pattern is falsy, minus every `.js` whose `.ts` sibling matched, in glob order. |
| Watch.NewConfig | node_modules/egg-ts-helper/dist/watcher.js:65-69 | The config is the options plus `file`, `dir`, `dtsDir` and the already-computed `fileList`. No other option changes. |
| Watch.Enqueue | node_modules/egg-ts-helper/dist/watcher.js:79-81 | The path is on the stack afterwards. It is pushed once, at the end, only if absent. The stack stays free of duplicates. |
| Watch.Stacked | node_modules/egg-ts-helper/dist/watcher.js:79-81 | After any burst of events the stack holds each changed path exactly once, and nothing else. |
| Watch.DrainExecutesEachPathOnce | node_modules/egg-ts-helper/dist/watcher.js:79-88 | The drain runs every changed path exactly once, in reverse order of first arrival: the last path newly stacked runs first. |
| Watch.Subscriptions | node_modules/egg-ts-helper/dist/watcher.js:53-59 | One `onChange` subscription per trigger, in order, then `unlink` to remove same-name JS when `autoRemoveJs` is set. |
| Watch.Watcher.constructor | node_modules/egg-ts-helper/dist/watcher.js:13-25 | The options are the merge. The stack is empty, no timer is pending, no fs watcher exists, and nothing has been emitted. |
| Watch.Watcher.EmissionsSpec | node_modules/egg-ts-helper/dist/watcher.js:70-73 | Every emitted `update` carries its file's truthy generator result. Every truthy result is emitted. |
| Watch.Watcher.Execute | node_modules/egg-ts-helper/dist/watcher.js:63-75 | Returns the generator's result for the file. Appends an `update` exactly when it is truthy. |
| Watch.Watcher.OnChange | node_modules/egg-ts-helper/dist/watcher.js:77-91 | The path is enqueued without duplicates and a drain is pending. A new timer is scheduled only when none was. The stack is non-empty exactly while a timer is pending. |
| Watch.Watcher.Fire | node_modules/egg-ts-helper/dist/watcher.js:85-89 | The timer empties the stack, executing its paths last-in first-out. It emits exactly their truthy results in that order and clears the timer. |
| Watch.Watcher.Destroy | node_modules/egg-ts-helper/dist/watcher.js:30-38 | Closes the fs watcher if any, clears the timer and empties the stack. |
| Watch.Watcher.Watch | node_modules/egg-ts-helper/dist/watcher.js:40-61 | With `watch` falsy nothing changes. Otherwise: any previous watcher is closed; a new one watches the joined pattern with forward slashes; the new one carries the trigger and `autoRemoveJs` subscriptions. |

## Left out

- File-system and process I/O are left out. The glob (`globby.sync`) and
  `generator` are function parameters of the Watcher. `path.join`,
  `path.relative`, `path.resolve` and `path.extname` are the `PathLib`
  parameter. `fs`, `cleanJs`, the tsconfig and jsconfig writers, and
  `loadModules`/`requireFile` are not part of this model.
- `removeSameNameJs` appears only as the handler tag `RemoveSameNameJs` of
  the `unlink` subscription. It deletes a file, which this model does not
  represent.
- chokidar is replaced by a value. `Watch` records the glob and the
  subscriptions made on it, and `closed` records every `close()`.
  `config.watchOptions` is left out.
- The EventEmitter listener registry is left out. `emit('update', …)` is
  the `updates` log, and `removeAllListeners` in `destroy` has no
  counterpart.
- Time is left out. `setTimeout` is the `armed` flag plus the `Fire`
  method, and `clearTimeout` clears the flag. The `throttle` delay and
  interleaving with other callbacks are not modelled.
- `getGenerator` is left out. The loaded generator is a parameter, with
  `baseConfig` and `helper` already fixed.
- The `dir`/`dtsDir` computation of `init` (lines 26-28) is left out:
  `dir` and `dtsDir` are constructor parameters.
- Watch.Watcher.Watch: requires `pattern` to be a string and `trigger` a
  list of strings when `watch` is truthy. The source's TypeScript types
  promise this, and other values would throw.
- Watch.Watcher.Fire: a generator that throws mid-drain is not modelled.
  The model's generator is total.
- The lazy, memoised `fileList` getter is modelled as a plain list,
  because `Object.assign` evaluates it once while building the config.
- The TypeScript parser is left out. `findExportNode` takes the root
  statements as a `Node` datatype. The `eachSourceFile` recursion is not
  modelled because the visitor returns at once for every non-root node.
- In `ExportResolver`, `Map` iteration order and node identity are not
  represented: the cache is a `map`.
- Case mapping covers ASCII letters only. `toUpperCase`/`toLowerCase` on
  other characters, and UTF-16 code units, are not modelled.
- Inherited properties are not modelled. An object in the tree has only its
  own keys. So a path segment named after an `Object.prototype` member
  (such as `constructor`) is treated as absent, where the source's
  `collector[name] || {}` would read the inherited value.
- ClassGenerator.Collect: the collector walk is modelled on values. The
  shared mutable object that `collector` aliases into is replaced by
  rebuilding the tree.
- `caseStyle` values other than `'lower'`, `'upper'`, `'camel'` or a
  function behave like `'camel'` in the source, and are modelled as
  `Camel`.
- `convertString`, `log`, debug output, `register.js` and the command-line
  code are not part of this model.
