# mini-vite request-time core, modelled in Dafny

This project models the part of a no-bundle development server that runs for each module request:

- **The import rewrite.** This is the `transform` hook of the import-analysis plugin. It takes the import specifiers the lexer found in a JavaScript module and sorts them into four kinds: `.svg` assets, bare package imports, relative or absolute paths, and everything else. It overwrites each specifier with a url the browser can request, collects the module's import set, prepends the HMR client prelude to application code, and hands the import set to the module graph.
- **The path resolver.** This is `resolveId` of the resolve plugin: an absolute path, then the same path under the project root; then a relative path with an extension; then a relative path probed against the ordered extension list.
- **The url helpers.** These are `cleanUrl`, `isJSRequest`, `isCSSRequest`, `isImportRequest`, `removeImportQuery`, `getShortName` and `isInternalRequest`.
- **The content wrappers.** These are the CSS plugin's `transform`, which turns a stylesheet into a module that injects it, and the asset plugin's `load`, which turns an svg request into a module exporting its path.

The modules follow the program:

- `ImportAnalysis` (import_analysis.dfy) holds the transform. `Transform` is a method that runs the loop `RewriteImports` over the specifiers, each turn (`RewriteOne`) overwriting a span of a `MagicString` object, and then updates a `ModuleGraph` object. The loop is proved against `PlanFor`, a function that states what the loop does with each specifier, and the whole method against `TransformResult`.
- `ResolvePlugin` (resolve.dfy) holds `ResolveId`, a method with the source's extension-probing loop. Its contract states each branch.
- `Utils`, `CssPlugin` and `AssetPlugin` are functions and lemmas.
- `MagicStrings`, `ModuleGraphs`, `PosixPath` and `Json` model the collaborators the core calls:
  - MagicString's `overwrite`, `prepend` and `toString`;
  - the graph's `getModuleById` and `updateModuleInfo`;
  - Node's POSIX `path.join`, `normalize`, `dirname`, `extname`, `isAbsolute` and `relative`. `DirName` follows Node's character scan; `Normalize`, `ExtName` and `Relative` work on '/'-separated segments and are meant to give Node's results;
  - `JSON.stringify` of a string, with a reader that parses it back.
- `Constants` holds the values of constants.ts, which is not part of this model. Its JS_TYPES_RE and BARE_IMPORT_RE are predicates the caller chooses (`Config.jsTypes` and `Config.bareImport`), and so are its paths. HASH_RE and QUERY_RE are fixed inside `Utils.CleanUrl`.

Three behaviours of the resolver's code, which the model keeps:

- A relative specifier without an extension for which no candidate exists gives `null`, not a not-found error (src/node/plugins/resolve.ts:52-69).
- In the branch with an extension, `resolve.sync` is not wrapped in `try`. A failed lookup therefore propagates as an exception (`Thrown(ModuleNotFound(..))`), not as a returned error (src/node/plugins/resolve.ts:45).
- In the import rewrite, that exception aborts the transform before the graph is updated (src/node/plugins/importAnalysis.ts:100).

## Model

| member | source | states |
|---|---|---|
| ImportAnalysis.Transform | src/node/plugins/importAnalysis.ts:33-127 | The outcome is `TransformResult`. A non-JS or internal id gives `null` and leaves the graph alone. If a resolution throws, the transform throws and the graph's import sets are unchanged. Otherwise the text is the prelude (outside node_modules) followed by the code with the planned overwrites applied, in ascending order inside the code. The module's import set in the graph becomes exactly the planned set, and the graph's nodes are unchanged. |
| ImportAnalysis.RewriteImports | src/node/plugins/importAnalysis.ts:65-107 | The loop over the specifiers returns exactly the plan `PlanFor` describes: the exception of the first resolution that throws, or the overwrites and import set of all turns. On completion the buffer holds exactly the planned overwrites and no header. |
| ImportAnalysis.RewriteOne | src/node/plugins/importAnalysis.ts:71-106 | One turn classifies the specifier as `Classify` does: no text, an svg asset, a package, a resolvable, unresolvable or throwing path, or none of these. The buffer gains exactly one overwrite, over the specifier's span with its new url, iff the specifier is rewritten. |
| ImportAnalysis.PlanOrdered | src/node/plugins/importAnalysis.ts:68-107 | The planned overwrites are in ascending, disjoint order inside the code, as MagicString requires, given that the lexer's spans are. |
| ImportAnalysis.TransformResultCases | src/node/plugins/importAnalysis.ts:33-127 | The transform gives `null` iff the request is not handled (not JS, or internal). It throws iff the request is handled and some specifier's resolution throws, and then with the exception of the first such specifier. Otherwise its code begins with the header and it carries the generated map. |
| ImportAnalysis.PlanAbortsAtFirst | src/node/plugins/importAnalysis.ts:65-107 | A loop that threw stopped at the first specifier whose resolution throws, with that specifier's exception; every specifier before it was handled without throwing. |
| ImportAnalysis.NoImportsKeepsCode | src/node/plugins/importAnalysis.ts:41-127 | A handled module without import specifiers comes back as the header followed by its code unchanged. |
| ImportAnalysis.ResolveImportOutcome | src/node/plugins/importAnalysis.ts:43-60 | The inner `resolve` passes the container's exception through unchanged, and gives nothing iff the container resolved nothing. A resolved id becomes a url that starts with '/' and ends with the timestamp query of its cleaned id. |
| ImportAnalysis.ClassifyKinds | src/node/plugins/importAnalysis.ts:71-106 | A specifier without text is left alone. A rewrite records nothing iff the specifier ends in `.svg`. A recorded import is the url written. Only a relative or absolute specifier that is neither an asset nor a package can throw, and only when the container throws. |
| ImportAnalysis.HeaderForApplicationCode | src/node/plugins/importAnalysis.ts:109-117 | The header is empty iff the id contains `node_modules`; otherwise it is the whole HMR prelude. |
| ImportAnalysis.TransformTwice | src/node/plugins/importAnalysis.ts:65-120 | Transforming the same code for the same module twice gives the same result. The module's import set is the planned set, replaced rather than extended. |
| ImportAnalysis.PlanNeverAborts | src/node/plugins/importAnalysis.ts:98-106 | A transform that completes had no specifier whose resolution threw. |
| ImportAnalysis.PlanEdits | src/node/plugins/importAnalysis.ts:68-107 | The overwrites are exactly one per rewritten specifier, over that specifier's own span and with its new url. A skipped specifier (no text, unresolved, or of no known kind) gets none, so text outside the rewritten spans is kept. |
| ImportAnalysis.PlanEdges | src/node/plugins/importAnalysis.ts:65-107 | The import set is exactly the urls recorded by rewritten specifiers. Svg assets, skipped and unresolved specifiers add nothing. A repeated specifier yields one entry. |
| ImportAnalysis.AbortSticks | src/node/plugins/importAnalysis.ts:100 | Once a resolution has thrown, the later specifiers do not change the outcome. |
| ImportAnalysis.TimestampQueryReadable | src/node/plugins/importAnalysis.ts:52-58 | The `?t=` query is present iff the graph has a node for the cleaned resolved id with a positive timestamp. It is then `?t=` followed by decimal digits that read back as that timestamp. |
| ImportAnalysis.ResolvedImportRewrite | src/node/plugins/importAnalysis.ts:98-105 | A specifier resolved to `<root>/<rest>` is overwritten with `/<rest>` plus the module's timestamp query. The same string is recorded as an import. |
| ImportAnalysis.AssetImportRewrite | src/node/plugins/importAnalysis.ts:76-82 | `./<rel>.svg` imported from `<dir>/<file>` is overwritten with `<dir>/<rel>.svg?import` and records no import. This check runs before the bare-import test. |
| ImportAnalysis.PackageImportRewrite | src/node/plugins/importAnalysis.ts:88-97 | A bare specifier `<pkg>` is overwritten with `<root>/<PRE_BUNDLE_DIR>/<pkg>.js`, and exactly that path is recorded, without any existence check. |
| ImportAnalysis.PreludeNamesModule | src/node/plugins/importAnalysis.ts:111-116 | The prelude imports the HMR client from its public path. It names the module by a JSON string literal that parses back to the module's url without query or hash. |
| MagicStrings.MagicString.constructor | src/node/plugins/importAnalysis.ts:41 | A new buffer holds the code with no header and no overwrites. |
| MagicStrings.MagicString.Overwrite | src/node/plugins/importAnalysis.ts:80 | An overwrite of a range after all earlier ones is added to the buffer, which stays well formed. |
| MagicStrings.MagicString.Prepend | src/node/plugins/importAnalysis.ts:111-116 | Prepending puts the text before the current header and keeps the overwrites. |
| MagicStrings.RenderIsApply | src/node/plugins/importAnalysis.ts:123 | Rendering equals splicing the overwrites into the original one at a time, last first. Each overwrite replaces exactly its range and all other text is kept. |
| ModuleGraphs.ModuleGraph.UpdateModuleInfo | src/node/plugins/importAnalysis.ts:120 | The module's recorded import set becomes the given set. The node map is kept as it was (see "## Left out"). |
| Strings.DecimalRoundTrip | src/node/plugins/importAnalysis.ts:57 | The decimal text of a timestamp reads back as the timestamp. |
| Json.StringifyRoundTrip | src/node/plugins/importAnalysis.ts:113-115 | What `JSON.stringify` writes for a string parses back to that string. |
| PosixPath.DirNameOfFile | src/node/plugins/importAnalysis.ts:78 | `dirname` of a file in a normalised absolute directory is that directory. |
| PosixPath.JoinDotRelative | src/node/plugins/importAnalysis.ts:78 | `join(dir, "./" + rel)` for a normalised absolute dir and a normalised rel is `dir + "/" + rel`. |
| PosixPath.JoinAbsolute3 | src/node/plugins/importAnalysis.ts:89-93 | `join(root, dir, file)` of normalised parts is the parts separated by '/'. |
| PosixPath.JoinNonEmpty | src/node/plugins/importAnalysis.ts:89-93 | `path.join` of non-empty parts is the normalisation of the parts separated by '/'. |
| PosixPath.NormalizeDotted | src/node/plugins/importAnalysis.ts:78 | `path.normalize` drops a "." segment between normalised absolute and relative parts. |
| PosixPath.DirNameOfPath | src/node/plugins/importAnalysis.ts:78 | `dirname(d + "/" + file)` is `d` for an absolute `d` other than "/" and a plain file name. |
| PosixPath.NoDotNoExtension | src/node/utils.ts:15 | A path with no '.' has an empty `extname`. |
| Json.Stringify | src/node/plugins/importAnalysis.ts:113-115 | `JSON.stringify` of a string is a literal that begins and ends with '"'. |
| MagicStrings.MagicString.ToString | src/node/plugins/importAnalysis.ts:123 | The buffer's text is the header followed by the original with every overwrite spliced in, last first. |
| ModuleGraphs.ModuleGraph.GetModuleById | src/node/plugins/importAnalysis.ts:64 | A node is found iff the graph holds the id, and it is the graph's node for that id. |
| ResolvePlugin.ResolveId | src/node/plugins/resolve.ts:22-70 | See the list after this table. |
| PosixPath.TrailingDotIsNoExtension | src/node/plugins/resolve.ts:40 | An id ending in '.' has an extension of length at most 1, so it counts as having no extension. |
| Utils.CleanUrl | src/node/utils.ts:26 | The result is a prefix of the url with no '?' or '#'. It stops only at a '?' or a '#', so it is the longest such prefix. |
| Utils.CleanUrlIdempotent | src/node/utils.ts:26 | Cleaning twice is cleaning once. |
| Utils.CleanUrlIgnoresSuffix | src/node/utils.ts:26 | Appending a query or hash to a url does not change its cleaned form. |
| Utils.RequestKindIgnoresSuffix | src/node/utils.ts:10-21 | `isJSRequest` and `isCSSRequest` give the same answer with or without an appended query or hash. |
| Utils.ExtensionlessIsJS | src/node/utils.ts:10-19 | A url whose cleaned path has no '.' and does not end in '/' is a JavaScript request, whatever JS_TYPES_RE says. |
| Utils.DirectoryNeedsJSType | src/node/utils.ts:10-19 | A url whose cleaned path ends in '/' is a JavaScript request iff JS_TYPES_RE accepts it. |
| Utils.CssRequestOfPath | src/node/utils.ts:21 | A path followed by an optional query or hash is a CSS request iff the path ends in `.css`. |
| Utils.ImportQueryRoundTrip | src/node/utils.ts:22-30 | A url with `?import` appended is an import request, and removing the query gives the url back. |
| Utils.CleanUrlIsNotImportRequest | src/node/utils.ts:22-26 | A cleaned url is never an import request. |
| Utils.RemoveImportQuery | src/node/utils.ts:22-30 | For an import request, the result followed by `?import` is the url. Otherwise the url is returned unchanged. |
| Utils.RemoveImportQueryAfterClean | src/node/utils.ts:26-30 | A cleaned url has no import query left to remove. |
| Utils.GetShortName | src/node/utils.ts:32-34 | A file not under `root + "/"` is returned unchanged. |
| Utils.ShortNameUnderRoot | src/node/utils.ts:32-34 | For a normalised root and a normalised path below it, the short name is the part after `root + "/"`. |
| PosixPath.ResolvedUnder | src/node/utils.ts:33 | The segments `path.relative` reads from `<root>/<rest>` are the root's segments followed by the rest. |
| Utils.QueriedUrlIsNotInternal | src/node/utils.ts:36-40 | The internal requests are exactly CLIENT_PUBLIC_PATH and `/@react-refresh`, matched by exact membership: an internal url with a query appended is not internal. |
| CssPlugin.Transform | src/node/plugins/css.ts:16-32 | A module is produced iff the id ends in `.css`, and it carries no map. |
| CssPlugin.CssString | src/node/plugins/css.ts:20 | The embedded stylesheet has no '"' and no line feed. Its length is the input's minus its line feeds. |
| Strings.RemoveAllAppend | src/node/plugins/css.ts:20 | Removing line feeds works piece by piece, so the other characters keep their order. |
| CssPlugin.CssStringKeepsPlainText | src/node/plugins/css.ts:20 | A stylesheet without '"' or line feeds is embedded unchanged. |
| CssPlugin.CssStringIdempotent | src/node/plugins/css.ts:20 | Embedding an embedded stylesheet changes nothing. |
| CssPlugin.TrimSurrounded | src/node/plugins/css.ts:26 | `trim()` removes exactly the white space around text that starts and ends with other characters. |
| CssPlugin.Trim | src/node/plugins/css.ts:26 | `trim()` gives a result that starts and ends with non-white characters. It is empty iff the input is all ECMAScript white space. |
| CssPlugin.TransformShape | src/node/plugins/css.ts:19-26 | The trimmed module is `const css = "`, the stylesheet, then the injection statements, ending with `export default css;`. |
| CssPlugin.LiteralHoldsStylesheet | src/node/plugins/css.ts:19-20 | In the module's text, the characters after `const css = "` up to the next '"' are exactly the embedded stylesheet. This is a fact about the text, not about how JavaScript reads the literal. |
| AssetPlugin.Load | src/node/plugins/assets.ts:7-18 | A module is produced iff the cleaned id ends in `.svg`, and it carries no map. |
| AssetPlugin.LoadExportsCleanPath | src/node/plugins/assets.ts:8-16 | The code is `export default "<path>"`. The path is the id's prefix up to the first '?' or '#', ends in `.svg`, and holds neither character. |
| AssetPlugin.LoadIgnoresSuffix | src/node/plugins/assets.ts:8 | A query or hash on the request, such as `?import`, does not change the module. |

`ResolvePlugin.ResolveId` states each branch of the resolver:

- An absolute id that exists is returned unchanged. Otherwise `join(root, id)` is returned if it exists, and otherwise `null`.
- A relative id without an importer throws.
- A relative id with an extension is resolved once against `dirname(importer)`. A lookup failure propagates; a found but missing file gives `null`.
- A relative id without an extension gives the first candidate that resolves to an existing file. A failing candidate is skipped, and the result is `null` exactly when no candidate is a hit.
- Any other id gives `null`.

## Left out

- **Server plumbing.** The server (src/node/server/index.ts) is not modelled: the connect app, file watcher, WebSocket server, `listen`, the pre-bundling call and console output are I/O and startup plumbing.
- **The plugin list.** src/node/plugins/index.ts only builds a fixed list and is not part of this model. The same goes for the plugin container, which `this.resolve` goes through. In `ImportAnalysis.Transform`, `this.resolve` is a function parameter returning the resolver's outcome type; the model does not prove that it is `ResolveId`, because a method cannot be called from a function.
- **The lexer.** `init` and `parse` of es-module-lexer are a foreign lexer. Their output is an input list of spans, required in ascending order, disjoint and inside the code.
- **I/O as inputs.** `pathExists`, `resolve.sync`, `readFile` and the file system are a set of existing paths plus a partial lookup function. CSS `load` reads a file and is left out. The `console.log` in asset `load` is left out.
- **Source maps.** `ms.generateMap()` becomes the token `GeneratedMap`; the map's contents are not modelled.
- **MagicString.** MagicStrings.MagicString models only ascending, non-overlapping overwrites and prepends, which are all the import rewrite issues; MagicString's other operations are not modelled.
- **The module graph.** The graph's source is not part of this model. `updateModuleInfo` records the given set; the back-edge diff it performs is not modelled. `lastHMRTimestamp` is an integer, so non-integral timestamps are not modelled.
- **Constants.** constants.ts is not part of this model. JS_TYPES_RE and BARE_IMPORT_RE are predicate parameters, so `isJSRequest`'s JS_TYPES_RE test is whatever the caller supplies. `HASH_RE` and `QUERY_RE` are assumed to be `/#.*$/s` and `/\?.*$/s`: everything from the first '#' or '?' is dropped, line feeds included. Without the `s` flag, a '#' followed by a line feed would not match and the url would be kept.
- ModuleGraphs.ModuleGraph.UpdateModuleInfo: the graph's `updateModuleInfo` also creates a node for each newly imported url; the model keeps the node map fixed and records only the import set. Such a node would have no HMR timestamp, so it would add no `?t=` query to a later rewrite.
- PosixPath.Relative: `path.relative` resolves relative arguments against "/" instead of the process's working directory, which is not an input.
- ImportAnalysis.Transform / TransformResult: the module is required to be in the graph (`getModuleById(id)!`); the TypeError a missing node would raise is not modelled.
- Strings are sequences of Unicode scalar values, not UTF-16 code units, so a lone surrogate cannot be represented, nor the `\udxxx` escape `JSON.stringify` writes for one; no behaviour modelled here depends on them.
- Json.ParseString: it rejects `\u` escapes of surrogate code points, which `JSON.stringify` never writes for the strings modelled here.
- CssPlugin.CssString: as css.ts:20 does, only line feeds are removed and only double quotes are replaced. A carriage return or a backslash stays in the embedded stylesheet. In JavaScript the generated literal can then be a syntax error (a carriage return, a legacy octal escape such as `\2014`), or it can read back differently (a trailing `\` escapes the closing quote, `\f101` is a form feed). The model states facts about the generated text only.
- **Async.** `async`/`await` sequencing is not modelled; each hook runs to completion.
