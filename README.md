# A verified model of the Rollup build orchestrator and its chat overlay

The repository builds a game-server resource from `src/main` and the plugins
under `src/plugin`. Each build produces:

- a server bundle and a client bundle, each fed by a synthesised
  `virtual-entry.js` module;
- one browser overlay bundle per UI component, written in Vue or React;
- a generated host page that loads those bundles and defines the overlay
  registry `window.CEF`.

One of the overlays is the chat window `src/plugin/vragechat/cef/Chat.tsx`.

This Dafny project models that core and proves what it promises. Directory
scans become abstract, ordered lists of paths. The page is modelled by its
structure (links, mount divs, scripts, mounts, registry data), not by its
literal text.

| file | module | models |
|---|---|---|
| `wrappers.dfy` | `Wrappers` | `Option` and `Result` |
| `strings.dfy` | `Strings` | `split`/`join`, `filter(Boolean)`, `includes`, `startsWith`, `replace(/\//g, …)`, `trim`, ASCII `toUpperCase`/`toLowerCase` |
| `naming.dfy` | `Naming` | `createValidName`, as written and as its comment intends |
| `discovery.dfy` | `Discovery` | `getVueEntries` / `getReactEntries`, `componentVarNames` |
| `targets.dfy` | `Targets` | `getPluginEntries`, `generateConfig` (entry filter, exit, output, format), the `virtual-entry.js` text, `createVirtualEntry`, `external(id)` |
| `ui_configs.dfy` | `UiConfigs` | `generateVueConfig` / `generateVueConfigs` / `generateReactConfigs`, the host pages (`generateHtml`, `createHtmlPlugin`), `mainCssConfig`, the default export of `rollup.config.js` |
| `assets.dfy` | `Assets` | `copyStaticFiles` and `CEF.getStaticPath` |
| `registry.dfy` | `CefRegistry` | `window.CEF` of `vue.js` and `react.js`, as the class `Registry` |
| `levenshtein.dfy` | `EditDistance` | `levenshteinDistance` (the DP table) |
| `commands.dfy` | `ChatCommands` | `findSimilarWords`, `getCommandDescription` |
| `chat.dfy` | `Chat` | the chat state and its handlers, as the class `ChatState` |

Some files are near-copies of one another, and one model covers each pair:

- `rollup.config.js` and `scripts/rollup/client_server.js` share the `Targets` model. The enum `Script` selects the variant. The list `external` and the function `external(id)` differ, and so does the indentation of the `modules` object.
- `scripts/rollup/vue.js` and `scripts/rollup/react.js` share the `Discovery`, `UiConfigs` and `CefRegistry` models. The enums `Framework` and `UiScript` select the variant.
- `createValidName` is identical in all three UI scripts.

## Model

| member | source | states |
|---|---|---|
| Naming.Capitalize | rollup.config.js:320 | the part keeps its length; its first character is upper-cased and the rest is unchanged |
| Naming.ValidNameOfSegments | rollup.config.js:313-322 | the name is "Cef", then every non-empty `/`-segment of the plugin path capitalised, then the capitalised component name |
| Naming.ValidNameOfPath | rollup.config.js:315-316 | for a path written as a `/`-join of pieces, empty pieces vanish and the others appear capitalised in order |
| Naming.SegmentsOfJoin | rollup.config.js:315 | `split('/').filter(Boolean)` of a `/`-join gives back exactly its non-empty pieces |
| Naming.ValidNameWithoutPath | scripts/rollup/react.js:19-20 | an empty plugin path contributes nothing: "Cef" + Cap(name) |
| Naming.ValidNameCollision | scripts/rollup/vue.js:19-26 | not injective despite the "for uniqueness" comment: ("C", "aB") and ("bC", "a") both give "CefABC" |
| Naming.ValidNamePathCollisions | scripts/rollup/vue.js:20-25 | `a//b` and `a/b`, and `a` and `A`, give the same names |
| Naming.CapJoinInjective | scripts/rollup/vue.js:24-26 | capitalise-and-concatenate is injective on parts of the form lower-case letter followed by no capitals |
| Naming.ValidNameInjective | scripts/rollup/vue.js:18-27 | under that condition equal names come from the same segments and the same component |
| Naming.ValidNameNotIdentifier | rollup.config.js:318-321 | as written, the name for plugin `my-plugin` is not a JavaScript identifier |
| Naming.IdentifierIsValid | rollup.config.js:318-321 | the corrected name (non-identifier characters separate words) is always a JavaScript identifier |
| Naming.IdentifierAgreesWithValidName | scripts/rollup/react.js:18-25 | on names and paths made of identifier characters the corrected name equals the original |
| Discovery.MainEntriesAt | rollup.config.js:338-346 | one entry per main file in scan order: the `i`-th is built from the `i`-th file, named `main_<basename>` with owner `main` |
| Discovery.PluginEntriesAt | rollup.config.js:356-371 | one entry per plugin file in scan order: the `i`-th is built from the `i`-th file and owned by the plugin path of its grandparent directory |
| Discovery.DiscoverEntries | rollup.config.js:326-374 | main entries (only when `src/main/cef` exists), then plugin entries, in scan order; an error exactly when the unguarded plugin search meets a missing `src/plugin` |
| Discovery.PluginEntryName | rollup.config.js:358-366 | a plugin entry is named `plugin_` + its plugin directories joined by `_` + `_` + component, and owned by those directories joined by `/` |
| Discovery.VarNameAgrees | rollup.config.js:344-369 | the constructor name `entry.varName` is always a JavaScript identifier, and it is `createValidName`'s result whenever the component name and plugin path hold only identifier characters and `/` |
| Discovery.EntriesLayout | scripts/rollup/react.js:91-123 | the list holds main entries first, then plugin entries, with their names and inputs in scan order |
| Discovery.MainAndPluginNamesDiffer | scripts/rollup/vue.js:45-69 | no main entry shares its output name with a plugin entry |
| Discovery.PluginNamesCollide | scripts/rollup/vue.js:69 | output names are not unique across plugins: for any names `a`, `b`, `c`, the files `a_b/cef/c.vue`, `a/cef/b_c.vue` and `a/b/cef/c.vue` all give `plugin_a_b_c` |
| Discovery.LiteralEntryName | scripts/rollup/vue.js:59-72 | a component file directly in `<dir>/cef` is named `plugin_<dir>_<component>` and owned by `<dir>` |
| Discovery.MainPluginConstructorCollision | rollup.config.js:344-369 | every component of a plugin named `main` gets the constructor name of the main component with the same file name, although the output names differ |
| Discovery.MainXName | rollup.config.js:344-369 | that shared constructor name is `CefMainX` for the component `X` |
| Discovery.LaterEntryWins | scripts/rollup/react.js:149-152 | the table has exactly the entry names as keys, and a name maps to the constructor of the last entry carrying it |
| Discovery.ComponentVarNames | scripts/rollup/react.js:149-152 | the `reduce` loop builds that table, keyed by every entry name |
| Targets.PluginNames | rollup.config.js:191 | one plugin name per plugin entry, in order: the basename of the entry's grandparent directory |
| Targets.FilterPartition | rollup.config.js:174-180 | the filter keeps exactly the existing candidates and reports exactly the missing ones; the two counts add up |
| Targets.FilterAppend | scripts/rollup/client_server.js:168-174 | the filter distributes over concatenation, so it keeps candidate order |
| Targets.GenerateConfig | rollup.config.js:170-203 | exit status 1 exactly when no candidate exists; the missing candidates are reported in order; otherwise the target configuration |
| Targets.NoPluginsAbortIffNoMain | scripts/rollup/client_server.js:113-141 | a missing plugin directory or a failed search yields no plugins and is not fatal: the build aborts exactly when the main entry is missing |
| Targets.ServerTarget | rollup.config.js:162-198 | server output `dist/packages/core/index.js`, CommonJS, unnamed; external exactly the builtins and dependencies (rollup.config.js); builtins and plain dependency names external in both scripts |
| Targets.ClientTarget | scripts/rollup/client_server.js:156-198 | client output `dist/client_packages/index.js`, IIFE named `ClientBundle`, nothing external |
| Targets.VirtualEntryOf | rollup.config.js:212-218 | `main` imports the main entry, and import k + 1 binds plugin entry k to its plugin name; each key is the binding of its import |
| Targets.VirtualEntryStartsWithImports | rollup.config.js:211-228 | the first lines of the rendered module are exactly the import statements, `main` first |
| Targets.VirtualEntryEndsWithExport | scripts/rollup/client_server.js:239-247 | the last line of the rendered module is `export { main, <plugin names> };` |
| Targets.ModNames | rollup.config.js:109 | the export list of `createVirtualEntry` is `mod0 … mod(n-1)` |
| Targets.ModNamesDistinct | rollup.config.js:108-109 | different indices give different `mod<i>` names |
| Targets.CreateVirtualEntryImports | rollup.config.js:107-116 | lines 1 … n of `createVirtualEntry(files)` import `files[i]` as `mod<i>`, in order |
| Targets.ModBindingsDistinct | scripts/rollup/client_server.js:101-110 | the bindings of `createVirtualEntry` are pairwise distinct |
| Targets.ExternalBasics | scripts/rollup/client_server.js:197-207 | on the client nothing is external; on the server builtins and ids containing `node_modules` after backslash normalisation are external |
| Targets.UnscopedIsFirstSegment | scripts/rollup/client_server.js:210-219 | for an unscoped dependency, an id is claimed exactly when its first `/`-segment is the package name |
| Targets.ScopedDependencyMatchAsWritten | scripts/rollup/client_server.js:215-218 | as written, a scoped dependency `@s/n` claims exactly the ids starting with `@s/n` |
| Targets.ScopedDependencyMatch | scripts/rollup/client_server.js:213-220 | corrected, `@s/n` claims exactly itself and the paths below it |
| Targets.CorrectedNarrowsExternal | scripts/rollup/client_server.js:197-221 | whatever the corrected predicate keeps external, the original keeps external too |
| Targets.ScopedPrefixOverreach | scripts/rollup/client_server.js:215-218 | as written, dependency `@s/n` makes the unrelated package `@s/nx` external; the correction does not |
| Targets.ScopeWithoutName | scripts/rollup/client_server.js:216-217 | a dependency listed as a bare scope `@s` becomes `@s/undefined` and does not make `@s` itself external |
| Targets.TypesScopeWithoutName | scripts/rollup/client_server.js:216-217 | in particular a bare `@types` listing does not make `@types` external |
| UiConfigs.SameOutputIffSameName | rollup.config.js:429-459 | all component bundles write into one directory; two of them write the same script, and outside vue.js the same stylesheet, exactly when their entries have the same name |
| UiConfigs.PluginBundlesOverwrite | scripts/rollup/vue.js:285-293 | two different plugin components, `a_b/cef/c.vue` and `a/cef/b_c.vue`, both write `plugin_a_b_c.js`, so one bundle overwrites the other |
| UiConfigs.ExternalsAreRuntimeGlobals | scripts/rollup/react.js:315-321 | the modules a bundle leaves external are exactly the modules of its `output.globals`, in the same order |
| UiConfigs.PageMatchesBundles | rollup.config.js:386-397 | one stylesheet link, one div and one script per entry, in entry order; each script is the bundle's output file, and each mount instantiates the bundle's global on that entry's div |
| UiConfigs.LinkedStylesheetsAreBuilt | scripts/rollup/react.js:166-169 | every per-component stylesheet the page links is one a bundle extracts |
| UiConfigs.VueLinksUnbuiltStylesheets | scripts/rollup/vue.js:112-114 | vue.js links `<name>.css` for every component, yet its bundles extract no stylesheet |
| UiConfigs.ManagedPageStartsHidden | scripts/rollup/vue.js:135-153 | under `window.CEF` every div starts hidden at z-index 1, the registry lists the entry names in order, and in react.js every listed name has a constructor |
| UiConfigs.RootExportLayout | rollup.config.js:475-480 | the default export is server, client, the main stylesheet (written where the page's first link points), then one bundle per entry |
| Assets.AssetTargetsExactly | scripts/rollup/react.js:31-44 | `copyFiles` emits exactly the files whose names end in one of the listed extensions, hidden names and hidden directories included, each below the target with its relative path kept |
| Assets.HiddenAssetCopied | scripts/rollup/react.js:47-53 | a hidden asset in a hidden directory, `.cache/.logo.png`, is copied like any other |
| Assets.CopyFiles | scripts/rollup/react.js:31-44 | the copy loop emits exactly those targets, in search order |
| Assets.CopyStaticFiles | scripts/rollup/react.js:46-74 | main assets go under `static`, then each plugin's under `static/plugins/<pluginPath>`; the build fails exactly when `src/plugin` is missing |
| Assets.PluginTargetDirOf | scripts/rollup/react.js:64-71 | a plugin's target directory is `static/plugins` followed by the plugin's own directories |
| Assets.MainStaticPathAgrees | scripts/rollup/react.js:224-229 | `getStaticPath(null, rel)` is the path at which the copy put the main asset |
| Assets.PluginStaticPathAgrees | scripts/rollup/react.js:224-229 | `getStaticPath(pluginPath, rel)` is the path at which the copy put the plugin asset |
| Assets.PluginAssetsSeparated | scripts/rollup/react.js:63-73 | the same relative asset in two different plugins lands in two different places |
| Assets.TopLevelPluginLookupMisses | scripts/rollup/react.js:64-71 | a `cef/static` directly in `src/plugin` has the empty plugin path and is copied to `static/plugins/…`; the lookup by that empty path, `getStaticPath(null, rel)`, gives `./static/rel` instead |
| Assets.TopLevelPluginMainLookup | scripts/rollup/react.js:224-229 | such an asset is found by the main lookup with the prefix written out: `getStaticPath(null, 'plugins/a.png')` is where the copy put `a.png` |
| Assets.TopLevelAssetShadowsPluginAsset | scripts/rollup/react.js:63-73 | a top-level plugin asset `x/b.png` lands on the same target as plugin `x`'s `b.png`, which is exactly where `getStaticPath('x', 'b.png')` looks |
| Assets.MainAssetShadowsPluginAsset | scripts/rollup/react.js:47-73 | a main asset under `plugins/x/` lands on the same target as plugin `x`'s asset |
| CefRegistry.MaxOf | scripts/rollup/react.js:231-236 | the highest z-index is one of the listed levels and no listed level exceeds it |
| CefRegistry.MinOf | scripts/rollup/vue.js:176-179 | the lowest z-index is one of the listed levels and no listed level is below it |
| CefRegistry.LevelWithinBounds | scripts/rollup/vue.js:157-162 | every listed component's level lies between the lowest and the highest |
| CefRegistry.InitialVisibility | scripts/rollup/vue.js:150-154 | after `init`, the visibility table has exactly the listed components |
| CefRegistry.InitialNothingShown | scripts/rollup/react.js:279-281 | after `init` no name, listed or not, is visible |
| CefRegistry.PrototypeNameVisibleAsWritten | scripts/rollup/react.js:279-281 | as written, `isVisible("toString")` is truthy right after `init` |
| CefRegistry.VisibleAmongMembers | scripts/rollup/react.js:292-294 | the visible components are exactly the listed names that are shown |
| CefRegistry.VisibleAmongAppend | scripts/rollup/vue.js:257-259 | the filter distributes over concatenation, so it keeps list order |
| CefRegistry.VisibleAmongNone | scripts/rollup/react.js:283-285 | when no listed name is shown, nothing is visible |
| CefRegistry.VisibleOnlyOne | scripts/rollup/vue.js:252-259 | when exactly the occurrences of `c` are shown, those are the visible components |
| CefRegistry.OccurrencesOfUnique | scripts/rollup/react.js:287-290 | in a list without repeats, `c` occurs once when listed and otherwise not at all |
| CefRegistry.Registry.constructor | scripts/rollup/vue.js:135-154 | every element is hidden at z-index 1, every listed component is recorded as not visible, and no message has been posted |
| CefRegistry.Registry.BringToFront | scripts/rollup/react.js:238-244 | an existing element goes one above the old highest level, strictly above every other listed component; nothing else changes |
| CefRegistry.Registry.SendToBack | scripts/rollup/vue.js:173-182 | an existing element goes one below the old lowest level, strictly below every other listed component; nothing else changes |
| CefRegistry.Registry.SetZIndex | scripts/rollup/vue.js:184-189 | an existing element gets exactly the given z-index; nothing else changes |
| CefRegistry.Registry.MoveAbove | scripts/rollup/vue.js:191-197 | with both elements present, the element sits one above the reference; otherwise nothing changes |
| CefRegistry.Registry.MoveBelow | scripts/rollup/vue.js:199-205 | with both elements present, the element sits one below the reference; otherwise nothing changes |
| CefRegistry.Registry.Show | scripts/rollup/react.js:246-257 | an existing element becomes visible, loses `cef-hidden`, rises strictly above every other listed component, and `{c, true}` is posted once; no other visibility changes; a missing element changes nothing |
| CefRegistry.Registry.Hide | scripts/rollup/react.js:259-269 | an existing element becomes hidden, gets `cef-hidden`, and `{c, false}` is posted; no other visibility changes |
| CefRegistry.Registry.Toggle | scripts/rollup/react.js:271-277 | an existing element flips: when it was visible it is hidden as by `hide` (class added, z-index kept, `{c, false}` posted), otherwise shown as by `show` (class removed, one above the old highest z-index, `{c, true}` posted); a missing element changes nothing; no other visibility changes |
| CefRegistry.Registry.HideAll | scripts/rollup/react.js:283-285 | every listed component is recorded as not visible and every other record is kept; each listed component with an element gets `cef-hidden`; z-indices are kept; one `{c, false}` is posted per existing element, in list order; afterwards nothing is visible |
| CefRegistry.Registry.ShowOnly | scripts/rollup/vue.js:252-255 | every listed component is recorded as not visible and gets `cef-hidden` when its element exists, with one `{n, false}` posted per existing element in list order; then an existing `c` is shown: recorded visible, class removed, one above the old highest z-index, `{c, true}` posted; other records and z-indices are kept; afterwards the visible components are exactly the occurrences of `c` when its element exists, and none otherwise |
| EditDistance.Min3 | src/plugin/vragechat/cef/Chat.tsx:65-69 | the minimum of three is one of them and no larger than any |
| EditDistance.DistStep | src/plugin/vragechat/cef/Chat.tsx:60-71 | each table cell follows the first row and column and the min-of-three recurrence |
| EditDistance.LevenshteinDistance | src/plugin/vragechat/cef/Chat.tsx:55-74 | the table loop returns the edit distance of the two strings |
| EditDistance.DistBounds | src/plugin/vragechat/cef/Chat.tsx:55-74 | the length difference ≤ the distance ≤ the longer length; the distance to the empty string is the other string's length |
| EditDistance.DistZeroIff | src/plugin/vragechat/cef/Chat.tsx:55-74 | the distance is 0 exactly between equal strings |
| EditDistance.DistSymmetric | src/plugin/vragechat/cef/Chat.tsx:55-74 | the distance is symmetric |
| ChatCommands.CandidatesExactly | src/plugin/vragechat/cef/Chat.tsx:77-82 | the candidates are exactly the list entries containing the word, each with its distance and position, in list order |
| ChatCommands.Insert | src/plugin/vragechat/cef/Chat.tsx:83 | insertion adds exactly the one element |
| ChatCommands.InsertSorted | src/plugin/vragechat/cef/Chat.tsx:83 | insertion keeps the (distance, position) order |
| ChatCommands.SortRanked | src/plugin/vragechat/cef/Chat.tsx:83 | the sort is a permutation |
| ChatCommands.SortRankedSorted | src/plugin/vragechat/cef/Chat.tsx:83 | the sort orders by distance and, on ties, by list position (stable) |
| ChatCommands.RankingFacts | src/plugin/vragechat/cef/Chat.tsx:77-83 | the ranking is the candidates, permuted and sorted |
| ChatCommands.SuggestionsFromList | src/plugin/vragechat/cef/Chat.tsx:76-88 | at most five suggestions, fewer only when fewer entries contain the word, each an entry containing the word |
| ChatCommands.SuggestionsOrdered | src/plugin/vragechat/cef/Chat.tsx:83-85 | suggestions come in non-decreasing distance, ties in list order |
| ChatCommands.SuggestionsAreClosest | src/plugin/vragechat/cef/Chat.tsx:83-85 | no entry containing the word that is strictly closer than some suggestion is left out |
| ChatCommands.GetCommandDescription | src/plugin/vragechat/cef/Chat.tsx:90-96 | `~~~` for a missing command; for a language table the current language's text whenever it is non-empty, and only otherwise the `~~~` text, `undefined` when there is none; a plain string as is; `~~~` for any other value; a TypeError exactly for a `null` description; an empty result only from an empty string in the command itself |
| Strings.Trim | src/plugin/vragechat/cef/Chat.tsx:236 | `trim()` leaves exactly the middle of the input: the input is white space, then the result, then white space, and the result neither starts nor ends with white space (ECMAScript white space and line terminators) |
| Chat.Styled | src/plugin/vragechat/cef/Chat.tsx:166-186 | a leading `0` is cut and gives `color-purple`; a leading `1` is cut and gives `color-error`, flagged on a coloured background; other text is kept; ` hide3` without a coloured background |
| Chat.AppendNewest | src/plugin/vragechat/cef/Chat.tsx:188-198 | the list grows by one up to the cap of 100, the new message is last, and the result is the newest suffix |
| Chat.RecordInput | src/plugin/vragechat/cef/Chat.tsx:265 | the new input comes first, then the previous inputs newest first, with at most 100 in all |
| Chat.HintLines | src/plugin/vragechat/cef/Chat.tsx:129-143 | one hint line per suggestion, in order, each with its command's description |
| Chat.HintThrowsIff | src/plugin/vragechat/cef/Chat.tsx:89-94 | building the hint throws exactly when some suggested command's description is `null` (reading a language key of `null`) |
| Chat.ChatState.constructor | src/plugin/vragechat/cef/Chat.tsx:11-37 | the initial state: default settings, empty lists, closed input, history position -1, language `es` |
| Chat.ChatState.SetCommandsAndLang | src/plugin/vragechat/cef/Chat.tsx:344-349 | the command table, its names and the language are replaced; nothing else changes |
| Chat.ChatState.HandleChatInputStatus | src/plugin/vragechat/cef/Chat.tsx:99-124 | no change when the status is unchanged or when opening an inactive chat; otherwise the host gets focus, typing state and `player::chatOpen`, opening shows the scrollbar when enabled, and closing clears the hint |
| Chat.ChatState.UpdateCharCount | src/plugin/vragechat/cef/Chat.tsx:126-152 | for `/` plus at least one character, the suggestions for the lower-cased rest become the hint and the first becomes the completion word (a command name); when a suggested command's description is `null` the handler throws (`threw`) and both keep their old values; any other input clears both |
| Chat.ChatState.PushMessage | src/plugin/vragechat/cef/Chat.tsx:166-229 | the styled line is appended and the newest 100 are kept; the scrollbar shows when enabled; the chat is unhidden |
| Chat.ChatState.SendInput | src/plugin/vragechat/cef/Chat.tsx:235-269 | an empty line or a lone `/` records nothing; otherwise the line goes to the host (command or chat message) or is pushed, becomes the newest history entry, the input is cleared and the position reset; the input ends closed |
| Chat.ChatState.Deliver | src/plugin/vragechat/cef/Chat.tsx:247-267 | the line goes to the host, or is pushed when there is no host, and is recorded at the front of the history |
| Chat.ChatState.OnArrowUp | src/plugin/vragechat/cef/Chat.tsx:271-282 | at the oldest entry nothing changes; leaving the new line caches it; otherwise the next older entry is shown; the position stays within the history |
| Chat.ChatState.OnArrowDown | src/plugin/vragechat/cef/Chat.tsx:284-297 | on the new line nothing changes; from the newest entry the cached text comes back at -1; otherwise the next newer entry is shown |
| Chat.ChatState.HandleTabComplete | src/plugin/vragechat/cef/Chat.tsx:299-305 | with a completion word the input becomes `/<word>` and the word is consumed; otherwise nothing changes |
| Chat.ChatState.ToggleSolidChat | src/plugin/vragechat/cef/Chat.tsx:351-353 | only `solidchat` flips; every other setting and field is kept |

## Left out

- **Directory scans.** `jetpack.find` glob semantics, `jetpack.exists` and path resolution are not modelled, except for the asset pattern (`Assets.IsAsset`, below). A scan is an ordered list of relative paths, as the search reports it; the scripts do not sort, so neither does the model. The `*/<side>/index.ts` pattern is taken as already applied. Segments are assumed not to contain `/`.
- **File-system side effects.** `cleanUp` and `copyFiles` (copying `package.json`, `.env` and `conf.json`), reading `package.json`, console logging and the `.env` settings are not modelled. The dependency list and the builtin-module list are parameters.
- **Rollup plugin options.** The options passed to swc, typescript, babel, commonjs, node-resolve, postcss/tailwind and terser are opaque library configuration. They are not modelled, and neither is the `onwarn` filter. Only the input, output file and directory, format, bundle name, globals, externals, extracted stylesheet and list shape are.
- **Host page markup.** The literal HTML and CSS of the pages is not modelled, only its structure. The React page's DOM bootstrap (`createRoot`, `render`) is a table of constructors.
- **Registry document.** `document.getElementById` is the set of element ids the registry holds. z-indices are integers. `parseInt` of a non-numeric z-index (NaN) and `Math.max`/`Math.min` of an empty component list are not modelled: the registry requires a non-empty component list, as the page is generated only for a non-empty entry list. `window.postMessage` is an appended notice.
- CefRegistry.Registry.SendToBack: react.js has no `sendToBack`, `setZIndex`, `moveAbove` or `moveBelow`. The one `Registry` class also carries those vue.js operations.
- CefRegistry.Registry.IsVisible: uses the corrected `Shown`; the as-written truthiness is `IsVisibleAsWritten` (see Findings).
- **Chat side effects.** Rendering, scrolling, `setTimeout` timers (the scrollbar and autohide timers) and `requestAnimationFrame` are not modelled. The game host `mp` is a flag saying whether it is present, plus a log of the calls made to it. `getDateString` is the `timestamp` parameter.
- **React scheduling.** React's batching of state updates and the stale closures of the hooks are not modelled. Each handler runs on the current state, in program order.
- Chat.OutgoingLine: the look-around regular expression that strips colour markup is the parameter `stripColors`.
- Chat.ChatState.SetCommandsAndLang: `JSON.parse` is not modelled. The method takes the parsed table and its key order; a malformed string, which throws, is not modelled.
- Chat.HintLines: the HTML of the hint (the `args` list, the `(ADM: …)` mark and the `<b>`/`<br>` markup) is not modelled, only the suggested words and their descriptions. A `null` command entry, whose `.args` read throws, is not modelled; a `null` description is (`Chat.HintThrows`).
- ChatCommands.GetCommandDescription: a falsy command (`null`, `undefined`, `0`, `''`) is one case, `None`. Non-string values inside a language table are not modelled.
- Strings.ToLower: `toLowerCase` covers ASCII letters only; Unicode case mapping is not modelled.
- Strings.UpperChar: `toUpperCase` of a first character covers ASCII letters only.
- **Other chat handlers.** `clearMessages`, `activateChat`, `showChat`, `setFontSize`, `enableAutohide` and the keyboard and bridge wiring are outside the modelled core.
- Assets.IsAsset: takes the asset pattern as "the file name ends in `.` and one of the listed extensions, case-sensitively, at any depth". fs-jetpack's matcher runs minimatch with dot files allowed, so hidden names and hidden directories match too. The library itself is not part of this model, and neither are minimatch's other brace and globstar rules.
- Discovery.VarName: computes the constructor name with the corrected `Naming.CreateIdentifier`, not with `createValidName` as the scripts write it. The two agree whenever the component name and plugin path hold only ASCII letters, digits, `_`, `$` and `/` (`Naming.IdentifierAgreesWithValidName`). On other characters they can differ: for plugin `my-plugin` with component `Chat`, the scripts name the bundle `CefMy-pluginChat`, which is not an identifier and cannot be an IIFE name (`Naming.ValidNameNotIdentifier`); the model names it `CefMyPluginChat`. Every bundle name, page mount and React constructor table in `UiConfigs` inherits the corrected name, so the model does not capture that such a build fails.
- Targets.KeepsExternal: reads client_server.js's `external(id)` through the corrected `Targets.IsExternal`, not `Targets.IsExternalAsWritten`. Every id the model keeps external is kept external by the script too (`Targets.CorrectedNarrowsExternal`). The script also keeps ids that merely extend a scoped dependency's name external: with dependency `@s/n` it leaves `@s/nx` out of the bundle (`Targets.ScopedPrefixOverreach`), while the model bundles it.
- EditDistance.LevenshteinDistance: a Dafny `string` is a sequence of Unicode scalar values, while the chat's `length`, `str[i - 1]` and `substr` count UTF-16 code units. Outside the Basic Multilingual Plane the two differ: the model gives 1 for the distance from `a` to an emoji, the chat 2.
- ChatCommands.FindSimilarWords: ranks by that same distance, so with characters outside the Basic Multilingual Plane the order of its suggestions can differ from the chat's.
- Chat.ChatState.SendInput: states the call that delivers the line and that earlier calls are kept. It does not list the focus, typing-state and `player::chatOpen` calls that closing the input adds; `HandleChatInputStatus` states those.

## Findings

| source | as written | input that shows it | evidently intended | confidence | as-written member | corrected member |
|---|---|---|---|---|---|---|
| rollup.config.js:318-321 | `createValidName` capitalises segments and joins them, keeping every other character | plugin path `my-plugin`, component `Chat` gives `CefMy-pluginChat`, which cannot be the IIFE's global name | "ensure it's a valid JS identifier": characters that cannot appear in an identifier separate words | not executed | Naming.ValidNameNotIdentifier | Naming.IdentifierIsValid |
| scripts/rollup/client_server.js:215-218 | a scoped dependency `@s/n` claims every id that starts with `@s/n` | dependency `@s/n` makes the unrelated package `@s/nx` external | like the unscoped branch: the package itself or a path below it (`@s/n/…`) | not executed | Targets.ScopedPrefixOverreach | Targets.ScopedDependencyMatch |
| scripts/rollup/react.js:279-281 | `isVisible` reads `visibilityState[name] \|\| false` from a plain `{}` | `isVisible("toString")` right after `init` is the inherited function, which is truthy | a name is visible only after `show` recorded `true` for it | not executed | CefRegistry.PrototypeNameVisibleAsWritten | CefRegistry.InitialNothingShown |

The rest of the model uses the corrected definitions (each is listed under "## Left out" with the inputs where it differs):

- `Discovery.VarName` uses `Naming.CreateIdentifier`.
- `Targets.KeepsExternal` uses `Targets.IsExternal`.
- `CefRegistry.Registry.IsVisible` uses `CefRegistry.Shown`.

Two of the checks above are not defects of a single line. They are mismatches between generated files:

- vue.js links a stylesheet per component that its bundles never extract (`UiConfigs.VueLinksUnbuiltStylesheets`).
- Plugin assets directly below `src/plugin/cef/static` are copied to `static/plugins/<rel>`, while the lookup by their own empty plugin path, `getStaticPath(null, rel)`, gives `./static/<rel>` (`Assets.TopLevelPluginLookupMisses`); only `getStaticPath(null, 'plugins/' + rel)` finds them (`Assets.TopLevelPluginMainLookup`). A top-level `x/b.png` also lands on plugin `x`'s `b.png` (`Assets.TopLevelAssetShadowsPluginAsset`).
