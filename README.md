# browserify-resolutions: resolution engine

A Dafny model of the engine in `index.js` of browserify-resolutions. This Browserify
plugin keeps one copy of each selected package in a bundle. The engine handles
several events in turn:

- **Grouping.** A `package` event whose name the options select registers a one-shot
  listener, and the next `file` event puts that file into the package's group.
- **Dependency recording.** The deps stream records the dep map of every grouped file.
- **Resolution.** When the deps stream ends, the first-seen file of every group with
  at least two files is *resolved*, and every other file of the group is *deduped*
  to it.
- **Propagation.** Each duplicate's dependencies are then deduped, one level deep, to
  the resolved file's dependencies under the same specifier.
- **Sort annotation.** The sort stream annotates rows with the outcome.
- **Dedupe rewrite.** The replacement dedupe stage rewrites every annotated row. It
  either re-exports the chosen module or calls its factory.

Modules:

- `JsValues` (`js_values.dfy`) holds the JavaScript notions the code relies on:
  - `Val`: `undefined`, `false` or a string;
  - truthiness;
  - the coercion of a value to a property key;
  - plain objects as insertion-ordered dictionaries (`OMap`).
- `Options` (`options.dfy`): `parseOptions` and the package selector.
- `Rows` (`rows.dfy`): rows, the sort-end annotation (`Annotate`) and the
  `dedupeCache` rewrite (`CacheRow`).
- `Grouping` (`grouping.dfy`): what `file` events and deps rows do to `modules` and
  `deps`.
- `Resolution` (`resolution.dfy`): the group phase of the deps `end`, as reference
  functions and as the loops of the source.
- `Propagation` (`propagation.dfy`): the propagation loop. Its reference definition
  lists the writes the loop attempts (`Proposals`) and applies them in order under
  the no-overwrite rule (`Apply`).
- `Plugin` (`plugin.dfy`): the class `Resolutions` holds the state the handlers
  share, with one method per event. It also has end-to-end lemmas.

The code gives a resolved file no precedence over a duplicate: the check at
index.js:194 comes before the one at index.js:197. Propagation can dedupe a resolved
file. `ExampleGroupPhase` and `PropagationCanDedupeCanonical` take two packages
whose copies depend crosswise on each other's copies. There, propagation dedupes the
resolved copy of one package to its own duplicate, which is already deduped back to
it.
`CanonicalKeptWithoutTruthyProposal` states the condition under which a resolved file
stays undeduped.

`CanonicalDedupedByTruthyProposal` states the converse, under the same notion of an
offered counterpart (`Proposed`): a truthy counterpart offered for a resolved file
always dedupes it. `PropagateDedupesExactly` states both directions for any entry.

Further facts of the code that the model keeps:
- the first-seen file of a group is resolved, whatever the length of its path;
- propagation is one level deep and runs once; it is not iterated to a fixed point;
- an excluded dependency is the value `false`. A duplicate's excluded dependency is
  written under the key `"false"`; `KeyOf` models that key.

## Model

| member | source | states |
|---|---|---|
| Options.ParseOptions | index.js:23-34 | `'*'` selects every non-empty name. A string selects exactly that name. An array selects exactly its items and is kept as it is. Anything else, or `[]`, selects nothing. The match is exact, never a substring. |
| Plugin.Resolutions.constructor | index.js:9-18 | A new plugin has the parsed options and empty `resolved` and `deduped`, with no groups, deps, index, rows or listeners. |
| Plugin.Resolutions.OnPackage | index.js:116-122 | A selected, truthy package name adds one pending listener at the end of the list. Nothing else changes. |
| Plugin.Resolutions.OnFile | index.js:122-128 | The file event drains every pending listener in registration order. `modules` becomes `AddFile` of the old groups. The file is flagged in `deps` exactly when some listener was pending. |
| Grouping.DrainListeners | index.js:122-128 | Draining the listeners computes `AddFile` of the groups, keeps them well formed with every group file a key of `deps`, and flags the file exactly when some listener was pending. |
| Grouping.AddFileGroups | index.js:123-124 | After a file event, each package's group is its old group followed by the file, once per pending listener of that package. Other groups are unchanged. |
| Grouping.AddFileShape | index.js:123 | The groups dictionary stays well formed. Existing package names keep their order and new ones follow. Only pending names are added. |
| Grouping.AddFileMembers | index.js:123-127 | Every file in a group remains a key of `deps`. |
| Plugin.Resolutions.OnDepsRow | index.js:134-144 | `deps` becomes `Record(deps, row)`: only a flagged file's entry becomes the row's dep map. The row is passed on unchanged. |
| Grouping.RecordAllOnlyFlagged | index.js:134-144 | A stream of rows adds no key to `deps`. A flagged file ends with the dep map of the last of its rows, or keeps its flag when no row of its arrives. |
| Plugin.Resolutions.OnDepsEnd | index.js:145-179 | `modules` and `resolved` become the result of the group phase, over the package names present when the loop starts. `deduped` becomes `Propagate` over the keys present after the group phase. The propagation's precondition holds on the plugin's own state. |
| Resolution.ResolveEach | index.js:146-161 | Over a snapshot of the package names, the `_.each` loop computes `ResolveGroups`. |
| Resolution.DedupeEach | index.js:158-160 | The `forEach` over the remaining files computes `DedupeAll`. |
| Resolution.DedupeAllGet | index.js:158-160 | After the `forEach`, each listed file maps to the resolved file. Every other entry is unchanged. |
| Resolution.Firsts | index.js:147-155 | A file is one of the firsts exactly when it is the first file of a named group with at least two files. |
| Resolution.ResolvedAreFirsts | index.js:146-155 | Over distinct names, the group phase adds to `resolved` exactly the first files of the groups with at least two files. Smaller groups add nothing. |
| Resolution.DedupedToCanonical | index.js:146-160 | After the group phase, a file maps to the first file of the last group holding it past the first position. Every other entry is unchanged. |
| Resolution.DisjointGroupTarget | index.js:152-160 | When groups share no file, every non-first file of a group maps to that group's first file. |
| Resolution.TargetsAreResolved | index.js:154-159 | After the group phase, started from empty maps, every truthy `deduped` entry names a resolved file. Propagation can later add entries that name unresolved files. |
| Resolution.CanonicalsNotDeduped | index.js:152-160 | When groups share no file, the group phase never dedupes a resolved file. |
| Resolution.ResolveGroupsShape | index.js:146-161 | The group phase keeps the dictionaries well formed and every group file a key of `deps`. Every `deduped` entry is a truthy file that is a key of `deps`. |
| Propagation.PropagateEach | index.js:166-176 | The outer `_.each` over a snapshot of `deduped`'s keys computes `Propagate`. Canonicals are read from the live dictionary. |
| Propagation.ApplyEdges | index.js:168-174 | The inner `_.each` over a duplicate's dep map applies that duplicate's writes in order. |
| Propagation.PropagateKeepsTruthy | index.js:171-173 | Propagation never overwrites a truthy `deduped` entry. |
| Propagation.PropagateOnlyDependencies | index.js:166-173 | An entry changes only if its file is listed in a walked duplicate's recorded dep map. It then takes the canonical's dependency under the same specifier. |
| Propagation.ProposalsAreProposed | index.js:166-173 | Every write the loop attempts targets a recorded dependency of a walked duplicate, with the canonical's counterpart as its value. |
| Propagation.PropagateFirstTruthyWins | index.js:168-173 | A falsy entry ends with the value of the first truthy write aimed at it. |
| Propagation.PropagateTruthyProposalWins | index.js:168-173 | An entry that some truthy write of the loop targets ends truthy, whatever it held before. |
| Propagation.ProposedIsProposal | index.js:166-173 | Every write described by `Proposed` (a walked duplicate's recorded dependency, with the canonical's counterpart) is one the loop attempts. The converse of `ProposalsAreProposed`. |
| Propagation.PropagateDedupesExactly | index.js:166-173 | A falsy entry ends truthy if and only if some walked duplicate offers a truthy counterpart for it. |
| Propagation.PropagateExcludedStaysFalsy | index.js:166-173 | An entry stays falsy, meaning "not deduped", when each counterpart offered for it is falsy, for example an excluded dependency. |
| Propagation.PropagateShape | index.js:166-176 | `deduped` stays well formed. Existing keys keep their order. |
| Propagation.ApplyAppend | index.js:166-176 | Applying two lists of writes one after the other equals applying their concatenation. |
| Plugin.Resolutions.OnSortRow | index.js:184-189 | The row's position is recorded under its id and the row is buffered at the end. |
| Plugin.Resolutions.OnSortEnd | index.js:190-208 | Exactly the buffered rows are emitted, in order and in the same number. Each is `Annotate`d with the final `deduped`, `resolved` and `index`. |
| Rows.Annotate | index.js:191-202 | A file with a truthy `deduped` entry gets that entry as `dedupe` and the entry's position as `dedupeIndex`. Otherwise a resolved file loses both fields. Any other row is unchanged. |
| Rows.ChosenId | index.js:63 | The chosen id is none exactly when neither `dedupe` nor `dedupeIndex` is truthy; `dedupeIndex` 0 is falsy. A truthy `dedupeIndex` wins. |
| Rows.CacheRow | index.js:63-83 | A row without a chosen id passes unchanged. Otherwise only its body, `nomap` and `indexDeps` change: the body re-exports exactly when the row is eligible and calls the factory otherwise, `nomap` is set, and `indexDeps.dup` is set when `dedupeIndex` is truthy. |
| Plugin.Resolutions.OnDedupeRow | index.js:62-87 | The dedupe stage's handler rewrites a row as `CacheRow` does, under the plugin's `resolved` and `deduped`. |
| Rows.CanonicalRowPassesThrough | index.js:194-202 | A resolved file that stays undeduped loses its `dedupe` at sort end and then passes the dedupe stage unchanged. |
| Rows.DuplicateRowIsRewritten | index.js:194-196 | A deduped file's row is always rewritten. It refers to its target by position when that is truthy, and by the target itself otherwise. |
| Rows.NoDepsEligibility | index.js:71 | A row without dependencies is eligible for the re-export exactly when its `dedupe` names a resolved file. |
| Plugin.GroupPhaseDedupesToFirst | index.js:146-160 | When groups share no file, a non-first file of a group is deduped to the group's first file, which is resolved. The propagation's precondition holds on the result. |
| Plugin.FirstSeenCopyWins | index.js:146-202 | When groups share no file, a non-first file of a group is deduped to the group's first file, keeps that through propagation, and is annotated and rewritten to refer to it. |
| Plugin.CanonicalKeptWithoutTruthyProposal | index.js:166-173 | When groups share no file, a resolved file stays undeduped as long as each counterpart offered for it is falsy. |
| Plugin.CanonicalDedupedByTruthyProposal | index.js:166-173 | When groups share no file, a resolved file that some walked duplicate offers a truthy counterpart for (`Proposed`) ends deduped. A resolved file has no precedence. |
| Plugin.ExampleGroupPhase | index.js:146-161 | For two packages of two copies each, the group phase resolves both first copies and dedupes both second copies to them, in that order. |
| Plugin.PropagationCanDedupeCanonical | index.js:166-176 | When those copies depend crosswise on each other's copies, propagation dedupes the resolved `/y1` to its own duplicate `/y2`, and `/y2` stays deduped to `/y1`: a two-step cycle. |

## Left out

- Stream plumbing is left out: `bundler.plugin`, `pipeline.get`, `splice`, `push`, listener registration and stream callbacks. Events are explicit method calls. The end of each stream is its own call.
- The JavaScript text built with `JSON.stringify` is not modelled. A body is the tag `ReExport(id)` or `ApplyWrapper(id)`.
- Rows are values. The source mutates row objects in place and re-emits the same objects; the model returns updated copies, so aliasing between buffered and emitted rows is not captured.
- Plain objects are dictionaries in insertion order. JavaScript's order for integer-like keys comes first, and prototype keys such as `__proto__` behave differently. Neither is modelled.
- Values are `undefined`, `false` or strings. Numbers and other objects as dep values or package names are not modelled.
- File ids from `file` events are non-empty strings, as Browserify reports resolved paths. So every `deduped` entry the group phase writes is truthy, and the `TypeError` that `deps[resolved][id]` would raise at index.js:172 for an unknown canonical does not arise.
- Propagation.Propagate: requires every snapshot key of `deduped` to hold a truthy file whose `deps` entry exists (`Ready`). `OnDepsEnd` proves this of the plugin's state. Under it the guard at index.js:167 never skips. A `deduped` holding falsy entries is not modelled, because there the live read at index.js:166 could see a value written earlier in the same loop.
- `dedupeCache` and `dedupeResolutions` used on their own, without the main export's reset, are not modelled. The class always starts from its constructor.
- `resolved` and `deduped` are module-level variables (index.js:4-5). So every bundler the export is applied to shares them, and so does every `dedupeCache` closure (index.js:71, index.js:89-91). A second application resets them (index.js:12-13) while the first bundler's handlers still read them. The class gives each instance its own maps, so that interference is not captured.
- Browserify's re-bundle mechanics for a second `bundle()` call live in the host and are left out.
- The code has none of the following, so neither has the model: path-length ordering, fixed-point propagation, a separate external marker, precedence of resolved files over duplicates, and warm-cache entry files.
- The test files are not modelled. They bundle real fixtures and evaluate the output.
