# react-scripts-pro build configuration: a Dafny model

This project models the three pieces of the react-scripts-pro webpack configuration
that carry behaviour of their own, and proves what they promise.

- **The JSON → SASS importer** (`config/sass-import-json.js`, module `SassImportJson`).
  A node-sass importer: for an `@import` of a `.json` file it finds the file under the
  importing file's directory and the `includePaths`, and turns the parsed object into
  one SASS variable declaration per top-level key (`$key: value;`, lists as `(a,b)`,
  maps as `(k: v,...)`). JSON values are a datatype `Json`; `parseValue`, `parseList`,
  `parseMap` and `transformJSONtoSass` are recursive functions over it. The importer is
  a function over a `Host` record that stands for Node: `is-there`, `path.join`,
  `require.resolve`, `require` of a JSON file (parsed object or the text of the error)
  and `path.delimiter`.
- **The CSS asset rewriter** (`config/clean-css.js`, module `CleanCss`). A webpack
  plugin whose `emit` handler walks every chunk's files and replaces each `.css` asset
  by the minifier's output, with a `size()` equal to that output's length, then calls
  back. The compilation is a class whose `assets` map the handler updates in place
  through two nested loops (the inner one is the method `RewriteChunk`); the loops are
  proved against `RewriteFiles`, a function over the asset table, and the properties
  are proved about that function. The minifier (CleanCSS with the plugin's fixed
  level-2 options) is a parameter `minify: string -> string`.
- **The public-path helpers** (`config/paths.js`, module `Paths`): `ensureSlash` and
  `getServedPath`, with `PUBLIC_URL`, the package's `homepage` and
  `url.parse(...).pathname` as inputs.

Module `JsStrings` writes out the JavaScript built-ins the code relies on with their
JavaScript semantics: `endsWith` / an anchored suffix regex, `Array.prototype.join`,
`String.prototype.split`, `lastIndexOf`, `slice` and `substr` (negative positions and
clamping included). Module `Wrappers` holds `Option` and `Result`.

Behaviour kept exactly as the code has it:

- the importer takes the **last** existing candidate (`.pop()`), so an include path
  wins over the importing file's directory;
- `prev.slice(0, prev.lastIndexOf('/'))` drops the last character of a `prev` that has
  no `/` (`lastIndexOf` gives -1);
- `require.resolve(file)` runs outside the `try`, so a file that exists but that
  Node's module resolution does not find makes the importer throw rather than return
  an `Error` (`Host.resolves`, outcome `Throws`);
- a `.json` import found nowhere yields `{contents: ""}`, never a not-found error (the
  not-found return is commented out in the source);
- `null` prints as `null` as a top-level or map value but as the empty string inside a
  list (string `+` versus `Array.prototype.join`), so `[null]` renders like `[]`;
- strings are emitted without quoting or escaping;
- `ensureSlash(p, false)` removes one character only (`"a//"` becomes `"a/"`); its
  `path.substr(path, path.length - 1)` works because the string start argument becomes
  0;
- a `.css` name listed several times across chunks is minified once per occurrence,
  each pass on the previous pass's output.

## Model

| member | source | states |
|---|---|---|
| `JsStrings.EndsWithIffConcat` | config/sass-import-json.js:69-72 | an anchored suffix test holds exactly when the string is some prefix followed by the suffix |
| `JsStrings.Split` | config/sass-import-json.js:38 | splitting gives at least one piece and no piece contains the delimiter |
| `JsStrings.JoinSplit` | config/sass-import-json.js:38 | joining the split `includePaths` with the delimiter gives the option string back: splitting loses nothing |
| `JsStrings.SplitJoin` | config/sass-import-json.js:74-77 | splitting a join recovers the pieces when none contains the separator |
| `JsStrings.LastIndexOf` | config/sass-import-json.js:39 | the result is -1 or a position holding the character, and no later position holds it |
| `JsStrings.JoinEnds` | config/sass-import-json.js:74-77 | `Array.prototype.join` of at least one piece starts with the first piece and ends with the last |
| `JsStrings.Slice` | config/sass-import-json.js:39 | `slice` gives the range between in-range positions, counts a negative end from the end of the string, and gives `""` for an empty range |
| `JsStrings.Substr` | config/paths.js:60 | `substr` gives `length` characters from `start`, the rest of the string when it ends first, and `""` for a non-positive length |
| `SassImportJson.ParseValue` | config/sass-import-json.js:80-88 | `null` (and only `null`) comes back as `null`; an array is `parseList` of its items and an object `parseMap` of its entries, both parenthesised; booleans, numbers and strings come back as their own text |
| `SassImportJson.ParseList` | config/sass-import-json.js:90-94 | a list renders as text opening with `(` and closing with `)` |
| `SassImportJson.ParseMap` | config/sass-import-json.js:96-100 | a map renders as text opening with `(` and closing with `)` |
| `SassImportJson.EmptyMap` | config/sass-import-json.js:96-100 | the empty map renders as `()` |
| `SassImportJson.ListSplit` | config/sass-import-json.js:90-94 | inside the parentheses, a non-empty list's text splits on `,` back into its elements' texts when none holds a comma |
| `SassImportJson.MapSplit` | config/sass-import-json.js:96-100 | inside the parentheses, a non-empty map's text splits on `,` back into its `key: value` entries when none holds a comma |
| `SassImportJson.TransformJsonToSass` | config/sass-import-json.js:74-78 | the output is empty exactly for the empty object, and otherwise starts with `$` and ends with `;` |
| `SassImportJson.TransformEmpty` | config/sass-import-json.js:74-78 | the empty object transforms to the empty text |
| `SassImportJson.TransformLines` | config/sass-import-json.js:74-78 | for newline-free keys and values the output splits into exactly one line per top-level key, in key order, each `$key: value;`, starting with `$` and ending with `;`, no trailing newline |
| `SassImportJson.TransformKeepsKeyOrder` | config/sass-import-json.js:74-78 | `{"b":1,"a":2}` gives `$b: 1;\n$a: 2;`: enumeration order, not sorted |
| `SassImportJson.ListExamples` | config/sass-import-json.js:90-94 | `[1,2,3]` gives `(1,2,3)` and `[]` gives `()` |
| `SassImportJson.PairList` | config/sass-import-json.js:90-94 | `[2,3]` gives `(2,3)` |
| `SassImportJson.MapExample` | config/sass-import-json.js:96-100 | `{"x":1,"y":[2,3]}` gives `(x: 1,y: (2,3))`: nested values recurse through `parseValue` |
| `SassImportJson.StringPassesThrough` | config/sass-import-json.js:80-88 | a string value is emitted as it is, without quotes or escaping, commas included |
| `SassImportJson.NullAsTopLevelValue` | config/sass-import-json.js:74-78 | a top-level boolean prints as `true`, a top-level `null` as `null` |
| `SassImportJson.NullAsMapValue` | config/sass-import-json.js:96-100 | a `null` map value prints as `null` |
| `SassImportJson.NullInList` | config/sass-import-json.js:90-94 | a `null` list element prints as the empty string: `[null]` gives `()`, `[1,null]` gives `(1,)` |
| `SassImportJson.ValueParens` | config/sass-import-json.js:80-100 | when no key or scalar holds a parenthesis, the rendered value holds exactly one `(` and one `)` per array or object in it, under either conversion of `null` |
| `SassImportJson.ListParens` | config/sass-import-json.js:90-94 | a rendered list holds one more of each parenthesis than its elements together |
| `SassImportJson.MapParens` | config/sass-import-json.js:96-100 | a rendered map holds one more of each parenthesis than its values together |
| `SassImportJson.IsJsonFile` | config/sass-import-json.js:69-72 | `isJSONfile` holds exactly when the url is something followed by `.json`, case-sensitively |
| `SassImportJson.PrevDirectory` | config/sass-import-json.js:39 | with a `/` in `prev`: the text before its last `/`; without: `prev` minus its last character (`""` for `""`) |
| `SassImportJson.IncludePathList` | config/sass-import-json.js:38 | an unset or empty `includePaths` gives no entries; otherwise the entries hold no delimiter and join back into the option string |
| `SassImportJson.SearchPath` | config/sass-import-json.js:38-39 | the first root is the importing file's directory; the rest are exactly the pieces of `includePaths` split on the delimiter, none when the option is empty, joining back into the option string |
| `SassImportJson.PopFilterIsLast` | config/sass-import-json.js:40-42 | filtering then popping yields nothing exactly when no candidate exists, otherwise the last existing candidate in search order |
| `SassImportJson.ResolveFile` | config/sass-import-json.js:38-42 | no file exactly when the url exists under none of the roots; otherwise the url joined to the last root under which it exists |
| `SassImportJson.Load` | config/sass-import-json.js:60-66 | the contents exactly when `require` succeeds, and then they are `transformJSONtoSass` of the object it returned; otherwise an error whose message is the fixed prefix followed by `require`'s failure text |
| `SassImportJson.Import` | config/sass-import-json.js:33-67 | the importer returns `null` exactly for urls not ending in `.json`; it throws only for an existing file that `require.resolve` does not find |
| `SassImportJson.ImportMissingIsEmpty` | config/sass-import-json.js:44-54 | a `.json` import found under no root gives `{contents: ""}`, not an error |
| `SassImportJson.ImportReadsLastExisting` | config/sass-import-json.js:38-66 | the importer settles on the candidate under the last root of `[dir(prev)] ++ includePaths` where it exists; it throws if `require.resolve` does not find it, and otherwise returns its transform or the error |
| `SassImportJson.ImportErrorIsRequireFailure` | config/sass-import-json.js:60-66 | every error returned starts with the fixed `node-sass-json-importer: Error transforming JSON to SASS. ...` prefix, followed by the failure text `require` gave for an existing candidate that `require.resolve` finds |
| `CleanCss.RewriteFile` | config/clean-css.js:22-45 | one file name throws exactly when it is a `.css` name missing from the table; only that name's entry can change, and a `.css` entry becomes the minifier's output for its old content, with that output's length as size |
| `CleanCss.RewriteKeepsNames` | config/clean-css.js:19-48 | the handler neither adds nor removes asset names |
| `CleanCss.RewriteKeepsOthers` | config/clean-css.js:22-23 | an asset whose name does not end in `.css`, or that no chunk lists, keeps its content and size |
| `CleanCss.RewriteCompletes` | config/clean-css.js:19-49 | the walk reaches the callback exactly when every listed `.css` name has an asset |
| `CleanCss.RewriteThrowsAtFirstMissing` | config/clean-css.js:22-24 | when the walk throws, it throws at the first listed `.css` name that has no asset |
| `CleanCss.RewriteStopsAtThrow` | config/clean-css.js:24 | once a lookup has thrown, the file names after it change nothing |
| `CleanCss.RewriteMinifiesPerOccurrence` | config/clean-css.js:22-45 | after a complete walk, a `.css` asset listed k > 0 times holds the minifier applied k times to its original content, with size the length of that text; listed 0 times, it is unchanged |
| `CleanCss.RewrittenSizeIsLength` | config/clean-css.js:38-45 | a rewritten asset's `size()` equals the length of its new `source()`, which is the minifier's output for the previous pass's content |
| `CleanCss.RewriteChunk` | config/clean-css.js:22-47 | the inner loop over one chunk's files extends the run by that chunk; when a lookup throws, the table is already the outcome of the whole walk |
| `CleanCss.EmitHandler` | config/clean-css.js:18-50 | the nested loops leave the asset table equal to `RewriteFiles` of the old table over all chunks' files in order, return the name whose lookup threw if any, and call the callback once exactly when none threw |
| `Paths.EnsureSlash` | config/paths.js:57-66 | with `needsSlash` the result ends in `/` and is the path or the path plus `/`; without, a path ending in `/` loses exactly that last character and any other path is returned as it is; a path already in the wanted state is returned unchanged |
| `Paths.EnsureSlashIdempotent` | config/paths.js:57-66 | `ensureSlash(_, true)` is idempotent |
| `Paths.EnsureSlashRoundTrip` | config/paths.js:57-66 | adding then removing a slash restores a path without one; removing then adding restores a path ending in exactly one slash |
| `Paths.EnsureSlashStripsOnlyOne` | config/paths.js:59-60 | `"a//"` becomes `"a/"` and then `"a"`: removal is one character, not idempotent |
| `Paths.GetPublicUrl` | config/paths.js:68-69 | `PUBLIC_URL` when non-empty, otherwise the homepage; empty exactly when both are |
| `Paths.GetServedPath` | config/paths.js:77-82 | `PUBLIC_URL` if non-empty, else the homepage's pathname if a homepage is set, else `"/"`; the result always ends in `/`, gaining one only when the chosen value lacks it; a `null` pathname throws |

## Left out

- SassImportJson.ParseList: its own contract states only the enclosing parentheses; how elements render is stated by `ListParens`, `ListExamples` and `NullInList`.
- SassImportJson.ParseMap: its own contract states only the enclosing parentheses; how entries render is stated by `MapParens`, `MapExample` and `NullAsMapValue`.

- `require.cache` eviction before reading (config/sass-import-json.js:58): `Host.require` is a function of the file name, so every call already observes the file as it is.
- Which files Node's module resolution finds: `Host.resolves` is a parameter. By Node's documented rule a candidate under a relative root (a relative or empty `includePaths` entry, or a `prev` without a directory) loses its `./` in `path.join` and is looked up as a package, so it would resolve only against `node_modules`, and otherwise the importer throws; the model leaves that to the host.
- Reading and parsing the JSON file, the `is-there` check and `path.join` normalisation are the `Host` record's functions, not modelled.
- JavaScript's enumeration order for integer-like keys: an object is the sequence of its entries in the order given.
- Number formatting: a JSON number is the text JavaScript prints for it.
- A top-level JSON value that is not an object: `require` is taken to yield the entries of an object.
- A stack overflow on very deep nesting, the one way the transform itself could throw: the model's serialiser is total.
- `CleanCss.RewrittenSizeIsLength`: `size()` counts characters, while JavaScript's `length` counts UTF-16 code units, so the two differ for characters outside the Basic Multilingual Plane.
- CleanCSS's level-2 optimisations and its option object: the minifier is the parameter `minify`.
- Webpack's `compiler.plugin('emit', ...)` registration and the asynchronous meaning of `callback`: the handler is a method, the callback a counter.
- config/webpack.config.dev.js is a declarative options object; it is not part of this model.
- In config/paths.js: `fs.realpathSync`, `fs.existsSync`, `paths.config.json`, `resolveApp` / `resolveOwn`, the exported path table and template detection, and the monorepo discovery of `srcPaths` touch the file system or the environment and are not modelled; `url.parse` is the parameter `pathname`, and `getPublicUrl` is `GetPublicUrl`.
