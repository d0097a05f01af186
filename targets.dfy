/**
 * The server and client bundle targets (`generateConfig` in rollup.config.js and
 * scripts/rollup/client_server.js): plugin discovery for a side, the filter to
 * existing entry files that aborts the build when nothing is left, the text of
 * the synthesised `virtual-entry.js` module, the older `createVirtualEntry`,
 * the output settings, and the decision which imports stay external.
 *
 * Paths are absolute, as `path.resolve` returns them, and written as their
 * segments; `PathText` prints one with a leading `/`.
 */
module Targets {
  import opened Wrappers
  import opened Strings

  /** The two near-identical scripts: rollup.config.js and scripts/rollup/client_server.js. */
  datatype Script = RootConfig | ClientServer

  datatype Side = Server | Client

  datatype Format = Cjs | Iife | Esm

  type Path = seq<string>

  function PathText(p: Path): string
  {
    "/" + Join(p, "/")
  }

  function SideDir(side: Side): string
  {
    match side
    case Server => "server"
    case Client => "client"
  }

  /** `src/main/<side>/index.ts`, below the resolved source directory `src`. */
  function MainEntryPath(src: Path, side: Side): Path
  {
    src + ["main", SideDir(side), "index.ts"]
  }

  /**
   * What the search for `*\/<side>/index.ts` below `src/plugin` produced: no
   * plugin directory, a search that threw, or the files it found in order.
   */
  datatype PluginScan = NoPluginDirectory | ScanFailed | Scanned(files: seq<Path>)

  /** `getPluginEntries`: a missing directory or a failed search is not fatal, it yields no plugins. */
  function PluginEntryFiles(scan: PluginScan): seq<Path>
  {
    match scan
    case NoPluginDirectory => []
    case ScanFailed => []
    case Scanned(files) => files
  }

  /** `path.basename(path.dirname(path.dirname(file)))` for an absolute path. */
  function GrandparentName(f: Path): string
  {
    if |f| >= 3 then f[|f| - 3] else ""
  }

  /** `pluginNames`: the plugin directory of every plugin entry, in scan order. */
  function PluginNames(files: seq<Path>): (names: seq<string>)
    ensures |names| == |files|
    ensures forall k :: 0 <= k < |files| ==> names[k] == GrandparentName(files[k])
  {
    if |files| == 0 then [] else PluginNames(files[..|files| - 1]) + [GrandparentName(files[|files| - 1])]
  }

  // ---------------------------------------------------------------- the entry filter

  /** `[mainEntry, ...pluginEntries].filter(exists)`: the candidates that exist, in order. */
  function ExistingEntries(candidates: seq<Path>, existing: set<Path>): seq<Path>
  {
    if |candidates| == 0 then []
    else
      var last := candidates[|candidates| - 1];
      ExistingEntries(candidates[..|candidates| - 1], existing) + (if last in existing then [last] else [])
  }

  /** The candidates reported as `Entry point not found`, in order. */
  function MissingEntries(candidates: seq<Path>, existing: set<Path>): seq<Path>
  {
    if |candidates| == 0 then []
    else
      var last := candidates[|candidates| - 1];
      MissingEntries(candidates[..|candidates| - 1], existing) + (if last in existing then [] else [last])
  }

  /** The filter keeps exactly the existing candidates and reports exactly the others. */
  lemma {:induction false} FilterPartition(candidates: seq<Path>, existing: set<Path>)
    ensures forall p :: p in ExistingEntries(candidates, existing) <==> p in candidates && p in existing
    ensures forall p :: p in MissingEntries(candidates, existing) <==> p in candidates && p !in existing
    ensures |ExistingEntries(candidates, existing)| + |MissingEntries(candidates, existing)| == |candidates|
    decreases |candidates|
  {
    if |candidates| > 0 {
      var init := candidates[..|candidates| - 1];
      FilterPartition(init, existing);
      assert candidates == init + [candidates[|candidates| - 1]];
    }
  }

  /** The filter works piece by piece, so it keeps the order of the candidates. */
  lemma {:induction false} FilterAppend(a: seq<Path>, b: seq<Path>, existing: set<Path>)
    ensures ExistingEntries(a + b, existing) == ExistingEntries(a, existing) + ExistingEntries(b, existing)
    decreases |b|
  {
    if |b| == 0 {
      assert a + b == a;
    } else {
      var init := b[..|b| - 1];
      FilterAppend(a, init, existing);
      assert (a + b)[..|a + b| - 1] == a + init;
    }
  }

  // ---------------------------------------------------------------- externals

  /** `id.replace(/\\/g, '/')`. */
  function NormaliseId(id: string): string
  {
    ReplaceAll(id, '\\', '/')
  }

  /** `` `${scope}/${name}` `` for `[scope, name] = pkg.split('/')`; a missing name prints as `undefined`. */
  function ScopedPrefix(pkg: string): string
  {
    var parts := Split(pkg, '/');
    parts[0] + "/" + (if |parts| >= 2 then parts[1] else "undefined")
  }

  /** Whether an unscoped dependency `pkg` claims the normalised id. */
  predicate MatchesUnscoped(pkg: string, norm: string)
  {
    Split(norm, '/')[0] == pkg || StartsWith(norm, pkg + "/")
  }

  /** The dependency test of `external(id)` as client_server.js writes it. */
  predicate MatchesDependencyAsWritten(pkg: string, norm: string)
  {
    if StartsWith(pkg, "@") then StartsWith(norm, ScopedPrefix(pkg)) else MatchesUnscoped(pkg, norm)
  }

  /**
   * The dependency test with a segment boundary after a scoped package name, as
   * the unscoped branch already has: the package itself or a path inside it.
   */
  predicate MatchesDependency(pkg: string, norm: string)
  {
    if StartsWith(pkg, "@") then
      var prefix := ScopedPrefix(pkg);
      norm == prefix || StartsWith(norm, prefix + "/")
    else MatchesUnscoped(pkg, norm)
  }

  /** `external(id)` of client_server.js, as written. */
  predicate IsExternalAsWritten(side: Side, builtins: seq<string>, deps: seq<string>, id: string)
  {
    side == Server
    && (id in builtins || Includes(NormaliseId(id), "node_modules")
        || exists pkg :: pkg in deps && MatchesDependencyAsWritten(pkg, NormaliseId(id)))
  }

  /** `external(id)` of client_server.js with the corrected scoped-package test. */
  predicate IsExternal(side: Side, builtins: seq<string>, deps: seq<string>, id: string)
  {
    side == Server
    && (id in builtins || Includes(NormaliseId(id), "node_modules")
        || exists pkg :: pkg in deps && MatchesDependency(pkg, NormaliseId(id)))
  }

  /** The client bundle inlines everything; the server keeps builtins and installed modules out. */
  lemma ExternalBasics(side: Side, builtins: seq<string>, deps: seq<string>, id: string)
    ensures side == Client ==> !IsExternal(side, builtins, deps, id) && !IsExternalAsWritten(side, builtins, deps, id)
    ensures side == Server && id in builtins ==> IsExternal(side, builtins, deps, id)
    ensures side == Server && Includes(NormaliseId(id), "node_modules") ==> IsExternal(side, builtins, deps, id)
  {
  }

  /** For an unscoped dependency without `/`, `startsWith(pkg + '/')` adds nothing: the test is "first segment is `pkg`". */
  lemma UnscopedIsFirstSegment(pkg: string, norm: string)
    requires '/' !in pkg
    ensures MatchesUnscoped(pkg, norm) <==> Split(norm, '/')[0] == pkg
  {
    if StartsWith(norm, pkg + "/") {
      var rest := norm[|pkg| + 1..];
      assert norm == pkg + ['/'] + rest;
      SplitConcat(pkg, rest, '/');
      SplitNoSeparator(pkg, '/');
    }
  }

  /** `scope/name` splits into its two halves. */
  lemma ScopedPrefixOf(scope: string, name: string)
    requires '/' !in scope && '/' !in name
    ensures ScopedPrefix(scope + "/" + name) == scope + "/" + name
  {
    SplitConcat(scope, name, '/');
    SplitNoSeparator(scope, '/');
    SplitNoSeparator(name, '/');
  }

  /** With the correction a scoped dependency claims itself and the paths inside it, nothing else. */
  lemma ScopedDependencyMatch(scope: string, name: string, norm: string)
    requires StartsWith(scope, "@") && '/' !in scope && '/' !in name
    ensures var pkg := scope + "/" + name;
      MatchesDependency(pkg, norm) <==> norm == pkg || StartsWith(norm, pkg + "/")
  {
    var pkg := scope + "/" + name;
    ScopedPrefixOf(scope, name);
    assert pkg[..1] == scope[..1];
  }

  /** As written, a scoped dependency claims every id that starts with its name, with no segment boundary. */
  lemma ScopedDependencyMatchAsWritten(scope: string, name: string, norm: string)
    requires StartsWith(scope, "@") && '/' !in scope && '/' !in name
    ensures var pkg := scope + "/" + name;
      MatchesDependencyAsWritten(pkg, norm) <==> StartsWith(norm, pkg)
  {
    var pkg := scope + "/" + name;
    ScopedPrefixOf(scope, name);
    assert pkg[..1] == scope[..1];
  }

  /** The correction only narrows the decision: whatever it keeps external, the original does too. */
  lemma CorrectedNarrowsExternal(side: Side, builtins: seq<string>, deps: seq<string>, id: string)
    requires IsExternal(side, builtins, deps, id)
    ensures IsExternalAsWritten(side, builtins, deps, id)
  {
    var norm := NormaliseId(id);
    if !(id in builtins || Includes(norm, "node_modules")) {
      var pkg :| pkg in deps && MatchesDependency(pkg, norm);
      if StartsWith(pkg, "@") {
        var prefix := ScopedPrefix(pkg);
        if norm != prefix {
          assert norm[..|prefix|] == (norm[..|prefix + "/"|])[..|prefix|];
        }
      }
      assert MatchesDependencyAsWritten(pkg, norm);
    }
  }

  /** As written, dependency `@s/n` also claims the unrelated package `@s/nx`. */
  lemma ScopedPrefixOverreach()
    ensures IsExternalAsWritten(Server, [], ["@s/n"], "@s/nx")
    ensures !IsExternal(Server, [], ["@s/n"], "@s/nx")
  {
    ReplaceUnchanged("@s/nx", '\\', '/');
    ScopedOverreachMatch();
    TooLongNotIncluded("@s/nx", "node_modules");
    assert forall pkg :: pkg in ["@s/n"] ==> pkg == "@s/n";
  }

  lemma ScopedOverreachMatch()
    ensures MatchesDependencyAsWritten("@s/n", "@s/nx")
    ensures !MatchesDependency("@s/n", "@s/nx")
  {
    ScopedPrefixOf("@s", "n");
    assert "@s/n"[..1] == "@";
    assert "@s/nx"[..4] == "@s/n";
    assert "@s/nx"[..5][4] == 'x';
  }

  lemma TooLongNotIncluded(s: string, w: string)
    requires |w| > |s|
    ensures !Includes(s, w)
  {
  }

  /**
   * A scope `@s` listed without a package name becomes `@s/undefined` and
   * claims nothing of its own, not even `@s` itself.
   */
  lemma ScopeWithoutName(scope: string)
    requires StartsWith(scope, "@") && '/' !in scope && '\\' !in scope
    requires !Includes(scope, "node_modules")
    ensures !IsExternalAsWritten(Server, [], [scope], scope)
  {
    ReplaceUnchanged(scope, '\\', '/');
    ScopeWithoutNameMatch(scope);
    assert forall pkg :: pkg in [scope] ==> pkg == scope;
  }

  lemma ScopeWithoutNameMatch(scope: string)
    requires StartsWith(scope, "@") && '/' !in scope
    ensures ScopedPrefix(scope) == scope + "/" + "undefined"
    ensures !MatchesDependencyAsWritten(scope, scope)
  {
    SplitNoSeparator(scope, '/');
  }

  /** The bare scope `@types` is one such listing. */
  lemma TypesScopeWithoutName()
    ensures !IsExternalAsWritten(Server, [], ["@types"], "@types")
  {
    assert "@types"[..1] == "@";
    TooLongNotIncluded("@types", "node_modules");
    ScopeWithoutName("@types");
  }

  // ---------------------------------------------------------------- the virtual entry

  /** `import * as <binding> from '<path>';` */
  datatype Import = Import(binding: string, from: Path)

  /** The `virtual-entry.js` module: its imports, and the keys of `modules` (also its named exports). */
  datatype VirtualEntry = VirtualEntry(imports: seq<Import>, keys: seq<string>)

  function PluginImports(files: seq<Path>): (imps: seq<Import>)
    ensures |imps| == |files|
    ensures forall k :: 0 <= k < |files| ==> imps[k] == Import(GrandparentName(files[k]), files[k])
  {
    if |files| == 0 then [] else PluginImports(files[..|files| - 1]) + [Import(GrandparentName(files[|files| - 1]), files[|files| - 1])]
  }

  /** The module `load('virtual-entry.js')` synthesises from the main entry and the plugin entries. */
  function VirtualEntryOf(mainEntry: Path, pluginFiles: seq<Path>): (v: VirtualEntry)
    ensures |v.imports| == |v.keys| == |pluginFiles| + 1
    ensures v.keys[0] == "main" && v.imports[0] == Import("main", mainEntry)
    ensures forall k :: 0 <= k < |pluginFiles| ==>
              v.imports[k + 1] == Import(GrandparentName(pluginFiles[k]), pluginFiles[k])
    ensures forall k :: 0 <= k < |v.keys| ==> v.imports[k].binding == v.keys[k]
  {
    VirtualEntry([Import("main", mainEntry)] + PluginImports(pluginFiles), ["main"] + PluginNames(pluginFiles))
  }

  function ImportLine(i: Import): string
  {
    "import * as " + i.binding + " from '" + PathText(i.from) + "';"
  }

  function ImportLines(imps: seq<Import>): (lines: seq<string>)
    ensures |lines| == |imps|
    ensures forall k :: 0 <= k < |imps| ==> lines[k] == ImportLine(imps[k])
  {
    if |imps| == 0 then [] else ImportLines(imps[..|imps| - 1]) + [ImportLine(imps[|imps| - 1])]
  }

  /** `export { main, <names joined by ', '> };` */
  function ExportLine(names: seq<string>): string
  {
    "export { main, " + Join(names, ", ") + " };"
  }

  /**
   * Everything between the import block and the export line: the `modules`
   * object and its default export. rollup.config.js indents `main` and the first
   * plugin name by four spaces; client_server.js starts both at column 0.
   */
  function ModulesBlock(script: Script, names: seq<string>): string
  {
    var head := match script
      case RootConfig => "    main,\n    "
      case ClientServer => "main,\n";
    "\nconst modules = {\n" + head + Join(names, ",\n    ") + "\n};\n\nexport default modules;"
  }

  /** The text `load('virtual-entry.js')` returns. */
  function RenderVirtualEntry(script: Script, v: VirtualEntry): string
    requires |v.keys| >= 1
  {
    Join(ImportLines(v.imports), "\n") + "\n" + ModulesBlock(script, v.keys[1..]) + "\n" + ExportLine(v.keys[1..])
  }

  predicate NoNewline(s: string) { '\n' !in s }

  /** Plugin names and file paths that print on one line each. */
  predicate OneLineImports(imps: seq<Import>)
  {
    forall k :: 0 <= k < |imps| ==>
      NoNewline(imps[k].binding) && forall j :: 0 <= j < |imps[k].from| ==> NoNewline(imps[k].from[j])
  }

  lemma ImportLineOneLine(i: Import)
    requires NoNewline(i.binding) && forall j :: 0 <= j < |i.from| ==> NoNewline(i.from[j])
    ensures NoNewline(ImportLine(i))
  {
    JoinExcludes(i.from, "/", '\n');
  }

  lemma ImportLinesOneLine(imps: seq<Import>)
    requires OneLineImports(imps)
    ensures forall k :: 0 <= k < |imps| ==> NoNewline(ImportLines(imps)[k])
  {
    forall k | 0 <= k < |imps| ensures NoNewline(ImportLines(imps)[k]) {
      ImportLineOneLine(imps[k]);
    }
  }

  /** The first lines of the virtual entry are its import statements, `main` first. */
  lemma VirtualEntryStartsWithImports(script: Script, v: VirtualEntry)
    requires |v.keys| >= 1 && |v.imports| >= 1
    requires OneLineImports(v.imports)
    ensures var lines := Split(RenderVirtualEntry(script, v), '\n');
      |lines| >= |v.imports| && lines[..|v.imports|] == ImportLines(v.imports)
  {
    var ls := ImportLines(v.imports);
    var rest := ModulesBlock(script, v.keys[1..]) + "\n" + ExportLine(v.keys[1..]);
    assert RenderVirtualEntry(script, v) == Join(ls, "\n") + ['\n'] + rest;
    ImportLinesOneLine(v.imports);
    SplitJoin(ls, '\n');
    SplitConcat(Join(ls, "\n"), rest, '\n');
  }

  /** The last line of the virtual entry is the named export of `main` and the plugin names. */
  lemma VirtualEntryEndsWithExport(script: Script, v: VirtualEntry)
    requires |v.keys| >= 1
    requires forall k :: 0 <= k < |v.keys| ==> NoNewline(v.keys[k])
    ensures var lines := Split(RenderVirtualEntry(script, v), '\n');
      lines[|lines| - 1] == ExportLine(v.keys[1..])
  {
    var names := v.keys[1..];
    var front := Join(ImportLines(v.imports), "\n") + "\n" + ModulesBlock(script, names);
    assert RenderVirtualEntry(script, v) == front + ['\n'] + ExportLine(names);
    JoinExcludes(names, ", ", '\n');
    SplitNoSeparator(ExportLine(names), '\n');
    SplitConcat(front, ExportLine(names), '\n');
  }

  // ---------------------------------------------------------------- createVirtualEntry

  function ModName(i: nat): string
  {
    "mod" + NatToString(i)
  }

  lemma ModNamesDistinct(i: nat, j: nat)
    requires i != j
    ensures ModName(i) != ModName(j)
  {
    if ModName(i) == ModName(j) {
      assert ModName(i)[3..] == NatToString(i);
      assert ModName(j)[3..] == NatToString(j);
      NatToStringInjective(i, j);
    }
  }

  function ModImports(files: seq<Path>): (imps: seq<Import>)
    ensures |imps| == |files|
    ensures forall k :: 0 <= k < |files| ==> imps[k] == Import(ModName(k), files[k])
  {
    if |files| == 0 then [] else ModImports(files[..|files| - 1]) + [Import(ModName(|files| - 1), files[|files| - 1])]
  }

  function ModNames(n: nat): (names: seq<string>)
    ensures |names| == n
    ensures forall k :: 0 <= k < n ==> names[k] == ModName(k)
  {
    if n == 0 then [] else ModNames(n - 1) + [ModName(n - 1)]
  }

  /** `createVirtualEntry(entries)`: bind every entry to `mod<i>` and re-export those bindings. */
  function CreateVirtualEntry(files: seq<Path>): string
  {
    "\n" + Join(ImportLines(ModImports(files)), "\n") + "\n" + ModExports(|files|)
  }

  function ModExports(n: nat): string
  {
    "\nexport {\n" + Join(ModNames(n), ",\n  ") + "\n};"
  }

  /** Line `i + 1` of `createVirtualEntry(files)` imports `files[i]` as `mod<i>`. */
  lemma CreateVirtualEntryImports(files: seq<Path>)
    requires |files| >= 1
    requires forall k, j :: 0 <= k < |files| && 0 <= j < |files[k]| ==> NoNewline(files[k][j])
    ensures var lines := Split(CreateVirtualEntry(files), '\n');
      |lines| > |files| && lines[1..|files| + 1] == ImportLines(ModImports(files))
  {
    var imps := ModImports(files);
    ModImportsOneLine(files);
    ImportLinesOneLine(imps);
    LinesBetweenNewlines(ImportLines(imps), ModExports(|files|));
  }

  /** The lines of `"\n" + lines.join("\n") + "\n" + rest` after the first are `lines`, then those of `rest`. */
  lemma LinesBetweenNewlines(ls: seq<string>, rest: string)
    requires |ls| >= 1
    requires forall k :: 0 <= k < |ls| ==> NoNewline(ls[k])
    ensures var lines := Split("\n" + Join(ls, "\n") + "\n" + rest, '\n');
      |lines| > |ls| && lines[1..|ls| + 1] == ls
  {
    var body := Join(ls, "\n");
    var tail := body + ['\n'] + rest;
    assert "\n" + body + "\n" + rest == [] + ['\n'] + tail;
    SplitConcat([], tail, '\n');
    SplitConcat(body, rest, '\n');
    SplitJoin(ls, '\n');
    var lines := Split("\n" + body + "\n" + rest, '\n');
    assert lines == [""] + (ls + Split(rest, '\n'));
  }

  lemma ModImportsOneLine(files: seq<Path>)
    requires forall k, j :: 0 <= k < |files| && 0 <= j < |files[k]| ==> NoNewline(files[k][j])
    ensures OneLineImports(ModImports(files))
  {
    var imps := ModImports(files);
    forall k | 0 <= k < |imps| ensures NoNewline(imps[k].binding) {
      assert imps[k].binding == "mod" + NatToString(k);
    }
  }

  /** The bindings of `createVirtualEntry` are pairwise distinct. */
  lemma ModBindingsDistinct(files: seq<Path>)
    ensures forall k, j :: 0 <= k < j < |files| ==> ModImports(files)[k].binding != ModImports(files)[j].binding
  {
    forall k, j | 0 <= k < j < |files| ensures ModImports(files)[k].binding != ModImports(files)[j].binding {
      ModNamesDistinct(k, j);
    }
  }

  // ---------------------------------------------------------------- the target configuration

  /**
   * Which imports stay out of the bundle: rollup.config.js passes a list of
   * module ids, client_server.js the `external(id)` function.
   */
  datatype ExternalRule = ExternalIds(ids: seq<string>) | ExternalFunction(side: Side, builtins: seq<string>, deps: seq<string>)

  predicate KeepsExternal(rule: ExternalRule, id: string)
  {
    match rule
    case ExternalIds(ids) => id in ids
    case ExternalFunction(side, builtins, deps) => IsExternal(side, builtins, deps, id)
  }

  datatype TargetConfig = TargetConfig(
    input: string,
    file: Path,
    format: Format,
    bundleName: Option<string>,
    external: ExternalRule,
    entry: VirtualEntry,
    entryText: string)

  function OutputFile(side: Side): Path
  {
    match side
    case Server => ["dist", "packages", "core", "index.js"]
    case Client => ["dist", "client_packages", "index.js"]
  }

  function ExternalRuleOf(script: Script, side: Side, builtins: seq<string>, deps: seq<string>): ExternalRule
  {
    match script
    case RootConfig => ExternalIds(if side == Server then builtins + deps else [])
    case ClientServer => ExternalFunction(side, builtins, deps)
  }

  /** The configuration `generateConfig` returns when at least one entry exists. */
  function TargetConfigOf(script: Script, side: Side, src: Path, scan: PluginScan,
                          builtins: seq<string>, deps: seq<string>): TargetConfig
  {
    var v := VirtualEntryOf(MainEntryPath(src, side), PluginEntryFiles(scan));
    TargetConfig(
      "virtual-entry.js",
      OutputFile(side),
      if side == Server then Cjs else Iife,
      if side == Server then None else Some("ClientBundle"),
      ExternalRuleOf(script, side, builtins, deps),
      v,
      RenderVirtualEntry(script, v))
  }

  /** The build stops with `process.exit(code)`. */
  datatype BuildExit = BuildExit(code: int)

  /**
   * `generateConfig({isServer})`: filter `[mainEntry, ...pluginEntries]` to the
   * files that exist, reporting each missing one, and exit with status 1 when
   * none is left; otherwise return the target configuration. The filtered list
   * is only used for that check: the virtual entry imports every plugin entry.
   */
  method GenerateConfig(script: Script, side: Side, src: Path, existing: set<Path>, scan: PluginScan,
                        builtins: seq<string>, deps: seq<string>)
    returns (r: Result<TargetConfig, BuildExit>, missing: seq<Path>)
    ensures var candidates := [MainEntryPath(src, side)] + PluginEntryFiles(scan);
      && missing == MissingEntries(candidates, existing)
      && (r.Err? <==> ExistingEntries(candidates, existing) == [])
    ensures r.Err? ==> r.error == BuildExit(1)
    ensures r.Ok? ==> r.value == TargetConfigOf(script, side, src, scan, builtins, deps)
  {
    var mainEntry := MainEntryPath(src, side);
    var pluginEntries := PluginEntryFiles(scan);
    var candidates := [mainEntry] + pluginEntries;
    var kept: seq<Path> := [];
    missing := [];
    var i := 0;
    while i < |candidates|
      invariant 0 <= i <= |candidates|
      invariant kept == ExistingEntries(candidates[..i], existing)
      invariant missing == MissingEntries(candidates[..i], existing)
    {
      assert candidates[..i + 1][..i] == candidates[..i];
      if candidates[i] in existing {
        kept := kept + [candidates[i]];
      } else {
        missing := missing + [candidates[i]];
      }
      i := i + 1;
    }
    assert candidates[..i] == candidates;
    if |kept| == 0 {
      return Err(BuildExit(1)), missing;
    }
    r := Ok(TargetConfigOf(script, side, src, scan, builtins, deps));
  }

  /** A missing plugin directory or a failed search alone never stops the build: only the main entry decides. */
  lemma NoPluginsAbortIffNoMain(src: Path, side: Side, existing: set<Path>, scan: PluginScan)
    requires !scan.Scanned?
    ensures ExistingEntries([MainEntryPath(src, side)] + PluginEntryFiles(scan), existing) == []
            <==> MainEntryPath(src, side) !in existing
  {
    var c := [MainEntryPath(src, side)] + PluginEntryFiles(scan);
    assert c == [MainEntryPath(src, side)];
    assert c[..0] == [];
  }

  /** The server target: `dist/packages/core/index.js` as CommonJS, keeping builtins and dependencies external. */
  lemma ServerTarget(script: Script, src: Path, scan: PluginScan, builtins: seq<string>, deps: seq<string>, id: string)
    ensures var c := TargetConfigOf(script, Server, src, scan, builtins, deps);
      && c.input == "virtual-entry.js"
      && c.file == ["dist", "packages", "core", "index.js"] && c.format == Cjs && c.bundleName == None
      && (script == RootConfig ==> (KeepsExternal(c.external, id) <==> id in builtins || id in deps))
      && (id in builtins ==> KeepsExternal(c.external, id))
      && (id in deps && !StartsWith(id, "@") && '/' !in id && '\\' !in id ==> KeepsExternal(c.external, id))
  {
    if script == ClientServer && id in deps && !StartsWith(id, "@") && '/' !in id && '\\' !in id {
      ReplaceUnchanged(id, '\\', '/');
      SplitNoSeparator(id, '/');
      assert MatchesDependency(id, NormaliseId(id));
    }
  }

  /** The client target: `dist/client_packages/index.js` as an IIFE named `ClientBundle`, with nothing external. */
  lemma ClientTarget(script: Script, src: Path, scan: PluginScan, builtins: seq<string>, deps: seq<string>, id: string)
    ensures var c := TargetConfigOf(script, Client, src, scan, builtins, deps);
      && c.file == ["dist", "client_packages", "index.js"] && c.format == Iife
      && c.bundleName == Some("ClientBundle")
      && !KeepsExternal(c.external, id)
  {
  }
}
