# Client build manifest, modelled in Dafny

This project models the manifest assembler of Next.js's
`ClientBuildManifestPlugin`: the body of the webpack `emit` callback
(`client-build-manifest-plugin.js`, lines 17-95). The callback reads a
compilation (its chunks, its asset keys and its entry points) and fills
`assetMap`, which has three parts:

- `devFiles`: the asset paths under `static/development/dll/`;
- `clientPageDeps`: for each route, the route's own scripts and stylesheets
  followed by the main runtime's scripts;
- `clientPages`: for each route, its bundled page file.

It then aliases `"/"` to `"/index"` in both objects and rebuilds each object
with its keys in sorted order.

Files:

- `graph.dfy`: the compilation as plain data (`Chunk`, `EntryPoint`,
  `Compilation`), and the three imported constants as parameters
  (`Constants`).
- `strings.dfy`: suffix and prefix tests, backslash normalisation, the string
  order of `Array.prototype.sort`, and an insertion sort under it.
- `lists.dfy`: `FilterMap`, the shape of every filter-and-push loop in the
  plugin.
- `ordered_dict.dfy`: a JavaScript plain object used as a dictionary. It is
  an insertion-ordered key list plus a map, so `Object.keys` order is part of
  the value.
- `manifest_spec.dfy`: the callback as functions. `ManifestOf` is the whole
  manifest. The lemmas state what each part of the manifest holds.
- `manifest_builder.dfy`: the callback as written, with the same nested
  loops. The class `ManifestBuilder` is `assetMap`, and its methods update
  it in place. Each method is proved to leave the state that the matching
  function of `manifest_spec.dfy` describes. `Emit` is the whole callback,
  proved to return `ManifestOf`.
- `scenario.dfy`: a worked build. It has the main runtime chunk, an
  "about" page with a script, a stylesheet and a source map, and an "index"
  page whose chunk holds its bundled page. Its whole manifest is proved.

Behaviour of the code that the model keeps as it is:

- Line 51 tests only that `chunk.files` is present, so an empty list is
  walked and adds nothing (`ChunkFiles`).
- There is no check for a malformed compilation. The model's input types
  rule one out.
- The main runtime is the first chunk named `CLIENT_STATIC_FILES_RUNTIME_MAIN`
  (lines 24-26; `FirstNamed`).
- `clientPages` is never cleared between entry points. So a later entry on
  the same route replaces the dependency list, but replaces the page only if
  it has one (`AddEntriesPages`).

## Model

| member | source | states |
|---|---|---|
| Strings.NormalizeAt | client-build-manifest-plugin.js:33 | `replace(/\\/g, "/")` turns each backslash into a slash and keeps every other character at its place |
| Strings.NormalizeFixes | client-build-manifest-plugin.js:46 | a string without backslashes is left as it is |
| Strings.NormalizeEndsWith | client-build-manifest-plugin.js:56-71 | for a suffix without slashes or backslashes (`.map`, `.js`, `.css`, `.hot-update.js`), a file ends with it exactly when its normalised path does |
| Strings.LessIrreflexive | client-build-manifest-plugin.js:89-90 | no key sorts before itself |
| Strings.LessTransitive | client-build-manifest-plugin.js:89-90 | the sort order is transitive |
| Strings.LessTotal | client-build-manifest-plugin.js:89-90 | of two different keys, one sorts before the other |
| Strings.SortAscending | client-build-manifest-plugin.js:89-90 | `Object.keys(o).sort()` on distinct keys gives the same keys, each once, strictly ascending |
| Lists.FilterMapAppend | client-build-manifest-plugin.js:29 | filtering a concatenation gives the concatenation of the filtered parts, so the kept elements stay in input order |
| Lists.FilterMapMember | client-build-manifest-plugin.js:29 | an element is in the filtered list exactly when some input element is kept as it |
| Lists.FilterMapNone | client-build-manifest-plugin.js:32-37 | when every element is rejected, the result is empty |
| OrderedDict.Empty | client-build-manifest-plugin.js:20-21 | `{}` has no keys |
| OrderedDict.Dict.Put | client-build-manifest-plugin.js:75 | `o[k] = v` sets `k` to `v` and changes no other key. A new key goes last in `Object.keys` order, and an existing key keeps its place |
| OrderedDict.PutPut | client-build-manifest-plugin.js:67 | assigning a key twice is the same as assigning only the second value |
| OrderedDict.Rebuild | client-build-manifest-plugin.js:89-95 | the sort-and-`reduce` rebuild keeps exactly the keys and values of the object, and its key order is strictly ascending |
| ManifestSpec.FirstNamed | client-build-manifest-plugin.js:24-26 | `chunks.find` gives the first chunk with the main runtime's name, or none when no chunk has that name |
| ManifestSpec.MainJsFilesSpec | client-build-manifest-plugin.js:24-30 | `mainJsFiles` is empty without a main chunk. Otherwise it holds exactly the `.js` files of the first main chunk |
| ManifestSpec.DevFilesMember | client-build-manifest-plugin.js:32-37 | a path is in `devFiles` exactly when it is the normalised form of some asset key and starts with `static/development/dll/`. No extension filter applies |
| ManifestSpec.RouteKey | client-build-manifest-plugin.js:41-46 | an entry point has a route exactly when the route pattern captures a non-empty segment. The route is `/` and that segment, normalised, so it has no backslash and is never `/` itself |
| ManifestSpec.EntryFilesMember | client-build-manifest-plugin.js:49-55 | an entry point's files are the files of its chunks that have a non-empty name and a file list, and no others |
| ManifestSpec.EntryFilesStep | client-build-manifest-plugin.js:49-53 | walking one more chunk appends exactly that chunk's walked files |
| ManifestSpec.ClassifyKeepsTracked | client-build-manifest-plugin.js:56-69 | a file is kept exactly when it is a script or stylesheet that is neither a source map nor a hot update. A page bundle is exactly a kept file the bundled-page pattern matches. A kept file stays tracked once normalised |
| ManifestSpec.OwnDepsAppend | client-build-manifest-plugin.js:48-72 | `filesForEntry` grows in encounter order across chunks and files |
| ManifestSpec.OwnDepsMember | client-build-manifest-plugin.js:55-71 | a path is in `filesForEntry` exactly when it is the normalised form of a walked file that is kept and not a page bundle. Such a path is tracked and has no backslash |
| ManifestSpec.LastPageNone | client-build-manifest-plugin.js:66-69 | a run of files sets a page exactly when one of them is a page bundle |
| ManifestSpec.LastPageIsLast | client-build-manifest-plugin.js:66-69 | the page set is the last page bundle among the files, normalised, and no later file is a page bundle |
| ManifestSpec.LastPageTracked | client-build-manifest-plugin.js:56-69 | the page set is a tracked file without backslashes |
| ManifestSpec.VisitFile | client-build-manifest-plugin.js:55-72 | one more file appends its normalised path to `filesForEntry` when it is a dependency, replaces the page when it is a page bundle, and otherwise changes neither |
| ManifestSpec.LastPageAppend | client-build-manifest-plugin.js:49-69 | over two runs of files, the second run's page bundle wins, and the first run's page stands when the second has none |
| ManifestSpec.LastEntryFor | client-build-manifest-plugin.js:40-46 | the index found is an entry point resolving to the route |
| ManifestSpec.LastEntryForIsLast | client-build-manifest-plugin.js:40-46 | no later entry point resolves to the route, and none at all does when no index is found |
| ManifestSpec.RouteFilesUnresolved | client-build-manifest-plugin.js:41-44 | a route that no entry point resolves to collects no files |
| ManifestSpec.AddEntriesDeps | client-build-manifest-plugin.js:40-79 | after the entry loop, `clientPageDeps[route]` is set by the last entry point resolving to the route. It is that entry's own dependencies followed by `mainJsFiles`, even when it has no files of its own. A route that no entry point resolves to is untouched |
| ManifestSpec.AddEntriesPages | client-build-manifest-plugin.js:40-79 | after the entry loop, `clientPages[route]` is the last page bundle among the files of every entry point resolving to the route. A later entry without one does not clear it, and the route is untouched when there is none |
| ManifestSpec.AliasIndex | client-build-manifest-plugin.js:81-87 | `"/"` becomes a key with the value of `"/index"` exactly when `"/index"` is a key. No other key changes, and without `"/index"` nothing changes |
| ManifestSpec.ManifestDeps | client-build-manifest-plugin.js:40-91 | in the final `clientPageDeps`, keys are strictly ascending. A route other than `"/"` is a key exactly when some entry point resolves to it, and its list is the last such entry's dependencies followed by `mainJsFiles`. `"/"` is a key exactly when `"/index"` is, and it has the same list |
| ManifestSpec.ManifestDepsShape | client-build-manifest-plugin.js:55-78 | every list in `clientPageDeps` ends with `mainJsFiles`. Everything before that is a normalised script or stylesheet that is neither a source map nor a hot update |
| ManifestSpec.ManifestPages | client-build-manifest-plugin.js:55-95 | in the final `clientPages`, keys are strictly ascending. A route other than `"/"` is a key exactly when its entry points' files hold a page bundle, and its value is the last one. `"/"` aliases `"/index"`. Every page is a normalised, tracked file |
| ClientBuildManifest.ManifestBuilder.constructor | client-build-manifest-plugin.js:18-22 | `assetMap` starts with no dev files and two empty objects |
| ClientBuildManifest.ManifestBuilder.CollectDevFiles | client-build-manifest-plugin.js:32-37 | the asset-key loop appends `DevFiles(assetKeys)` to `devFiles` and changes nothing else |
| ClientBuildManifest.ManifestBuilder.AddEntryPoint | client-build-manifest-plugin.js:40-79 | one pass of the entry loop leaves both objects as `AddEntry` says and `devFiles` as it was |
| ClientBuildManifest.ManifestBuilder.AddChunk | client-build-manifest-plugin.js:49-53 | a chunk with a missing or empty name, or a missing file list, changes nothing. Any other chunk has its files walked |
| ClientBuildManifest.ManifestBuilder.AddChunkFiles | client-build-manifest-plugin.js:55-72 | the file loop extends `filesForEntry` to the dependencies of every file walked so far. It leaves `clientPages[route]` at the last page bundle walked so far, or as it was |
| ClientBuildManifest.ManifestBuilder.AddFile | client-build-manifest-plugin.js:56-71 | the four tests on one file, in source order, have the effect `VisitFile` states |
| ClientBuildManifest.ManifestBuilder.AliasRoot | client-build-manifest-plugin.js:81-87 | both objects become their `AliasIndex`, each independently of the other |
| ClientBuildManifest.ManifestBuilder.SortKeys | client-build-manifest-plugin.js:89-95 | both objects become their key-sorted `Rebuild` |
| ClientBuildManifest.Emit | client-build-manifest-plugin.js:17-95 | the callback's loops build exactly `ManifestOf(compilation)`, so `ManifestDeps`, `ManifestDepsShape` and `ManifestPages` hold of its result |
| Scenario.ExampleManifest | client-build-manifest-plugin.js:17-95 | for main, `pages/about` and `pages/index`, the manifest is `devFiles = []`, `clientPageDeps = {"/": ["main.js"], "/about": ["about.js", "about.css", "main.js"], "/index": ["main.js"]}` and `clientPages = {"/": "pages/index.js", "/index": "pages/index.js"}` |

## Left out

- Webpack plumbing (lines 13-16 and 97-100) is not modelled: the `emit` hook, writing the manifest into `compilation.assets` as a `RawSource`, and the `callback()` call. The model ends with the structured manifest.
- `JSON.stringify(assetMap, null, 2)` (line 98) is not modelled. Key order is part of the modelled value, but the text encoding is not.
- `ROUTE_NAME_REGEX`, `IS_BUNDLED_PAGE_REGEX` and `CLIENT_STATIC_FILES_RUNTIME_MAIN` come from `next-server/constants`, which is not part of this model. They are parameters (`Constants`), and each regex test is taken to be a pure function of its argument, so stateful `lastIndex` behaviour is not modelled. The scenario uses stand-ins that recognise only its own names.
- `index.js` is not part of this model. It is a configuration wrapper that delegates to webpack and to user configuration.
- ManifestSpec.MainJsFiles: a first main chunk whose `files` is missing makes line 28 throw a `TypeError` in JavaScript. The model gives an empty `mainJsFiles` instead.
- Runtime errors from a structurally malformed compilation (a missing `chunks` or `entrypoints`, a non-string file) are not modelled. The input types rule them out.
- Strings.SortAscending: JavaScript's default sort compares UTF-16 code units, and `Less` compares Dafny characters. The two orders agree on keys made of Basic Multilingual Plane characters, and differ only when surrogate pairs are involved.
- OrderedDict.Dict: JavaScript lists integer-like keys first in `Object.keys`, and the model keeps pure insertion order. Every key the plugin assigns starts with `/`, so none is integer-like.
- The order of `Object.keys(compilation.assets)` and of `compilation.entrypoints` is taken as given in the input sequences.
- Line 82 makes `"/"` and `"/index"` share one array object. The model copies the value, which is the same thing here because nothing changes the array afterwards.
