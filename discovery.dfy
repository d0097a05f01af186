/**
 * Discovery of UI components (`getVueEntries` in rollup.config.js and
 * scripts/rollup/vue.js, `getReactEntries` in scripts/rollup/react.js) and the
 * name-to-constructor table of the host page (`componentVarNames`).
 *
 * A scan is an abstract, ordered list of the files the directory search
 * reports; the scripts do not sort it and neither does the model.
 */
module Discovery {
  import opened Wrappers
  import opened Strings
  import opened Naming

  /** A file reported by a scan, as its path segments below the scanned directory. */
  type RelPath = seq<string>

  /**
   * The outcome of `jetpack.find` on a directory: `Missing` when the directory
   * does not exist (the search then raises), else the files it matched.
   */
  datatype Scan = Missing | Found(files: seq<RelPath>)

  /** The two interchangeable UI-component frameworks. */
  datatype Framework = Vue | React

  function Extension(fw: Framework): string
  {
    match fw
    case Vue => ".vue"
    case React => ".tsx"
  }

  /** Path segments as a scan reports them: non-empty, without a separator. */
  predicate IsRelPath(f: RelPath)
  {
    |f| >= 1 && forall i :: 0 <= i < |f| ==> f[i] != "" && '/' !in f[i]
  }

  /** A main component file found under `src/main/cef`. */
  predicate IsMainFile(f: RelPath) { IsRelPath(f) }

  /** A plugin component file: some directory on its path below `src/plugin` is `cef`. */
  predicate IsPluginFile(f: RelPath)
  {
    IsRelPath(f) && |f| >= 2 && "cef" in f[..|f| - 1]
  }

  /** `path.basename(file, ext)`: the last segment, without the extension. */
  function Basename(f: RelPath, ext: string): (r: string)
    ensures |f| >= 1 ==> |r| <= |f[|f| - 1]|
  {
    var base := if |f| == 0 then "" else f[|f| - 1];
    if |ext| < |base| && base[|base| - |ext|..] == ext then base[..|base| - |ext|] else base
  }

  /** `path.relative(pluginRoot, path.dirname(path.dirname(file)))`. */
  function PluginPathOf(f: RelPath): string
  {
    if |f| < 2 then "" else Join(f[..|f| - 2], "/")
  }

  /** Who contributes a component: the main code base or the plugin at a path. */
  datatype Owner = MainCode | Plugin(pluginPath: string)

  /**
   * One discovered UI component: `{input, name, type, plugin, varName}`. The
   * constructor name `varName` is derived from the component's base name and
   * its owner by `VarName` below.
   */
  datatype Entry = Entry(input: RelPath, name: string, owner: Owner, component: string)

  /** The path `createValidName` is given: `main` for main components, else the plugin path. */
  function NamingPath(o: Owner): string
  {
    match o
    case MainCode => "main"
    case Plugin(p) => p
  }

  /** `entry.varName`: the global constructor name of the component's bundle, by the corrected `CreateIdentifier`. */
  function VarName(e: Entry): string
  {
    CreateIdentifier(e.component, NamingPath(e.owner))
  }

  /**
   * The constructor name is always an identifier, and it is `createValidName`'s
   * result whenever the component name and the plugin path hold only
   * identifier characters and `/`.
   */
  lemma VarNameAgrees(e: Entry)
    ensures IsIdentifier(VarName(e))
    ensures AllIdentifierChars(e.component)
            && (forall i :: 0 <= i < |NamingPath(e.owner)| ==> IsIdentifierChar(NamingPath(e.owner)[i]) || NamingPath(e.owner)[i] == '/')
            ==> VarName(e) == CreateValidName(e.component, NamingPath(e.owner))
  {
    IdentifierIsValid(e.component, NamingPath(e.owner));
    if AllIdentifierChars(e.component)
       && (forall i :: 0 <= i < |NamingPath(e.owner)| ==> IsIdentifierChar(NamingPath(e.owner)[i]) || NamingPath(e.owner)[i] == '/')
    {
      IdentifierAgreesWithValidName(e.component, NamingPath(e.owner));
    }
  }

  function MainEntry(f: RelPath, fw: Framework): Entry
  {
    var n := Basename(f, Extension(fw));
    Entry(f, "main_" + n, MainCode, n)
  }

  function PluginEntry(f: RelPath, fw: Framework): Entry
  {
    var p := PluginPathOf(f);
    var n := Basename(f, Extension(fw));
    Entry(f, "plugin_" + ReplaceAll(p, '/', '_') + "_" + n, Plugin(p), n)
  }

  /** The entries of main component files, one per file, in scan order. */
  function MainEntries(files: seq<RelPath>, fw: Framework): seq<Entry>
  {
    MapSeq(MainEntryOf(fw), files)
  }

  function MainEntryOf(fw: Framework): RelPath -> Entry
  {
    f => MainEntry(f, fw)
  }

  /** The entries of plugin component files, one per file, in scan order. */
  function PluginEntries(files: seq<RelPath>, fw: Framework): seq<Entry>
  {
    MapSeq(PluginEntryOf(fw), files)
  }

  function PluginEntryOf(fw: Framework): RelPath -> Entry
  {
    f => PluginEntry(f, fw)
  }

  /** One main entry per file, the `i`-th built from the `i`-th main file. */
  lemma MainEntriesAt(files: seq<RelPath>, i: nat, fw: Framework)
    requires i < |files|
    ensures |MainEntries(files, fw)| == |files|
    ensures MainEntries(files, fw)[i] == MainEntry(files[i], fw)
  {
    MapSeqAt(MainEntryOf(fw), files, i);
  }

  /** One plugin entry per file, the `i`-th built from the `i`-th plugin file. */
  lemma PluginEntriesAt(files: seq<RelPath>, i: nat, fw: Framework)
    requires i < |files|
    ensures |PluginEntries(files, fw)| == |files|
    ensures PluginEntries(files, fw)[i] == PluginEntry(files[i], fw)
  {
    MapSeqAt(PluginEntryOf(fw), files, i);
  }

  function MainFiles(mainScan: Scan): seq<RelPath>
  {
    if mainScan.Found? then mainScan.files else []
  }

  /** Why discovery failed: the search was asked to look inside a missing directory. */
  datatype DiscoveryError = PluginDirectoryMissing

  /**
   * `getVueEntries` / `getReactEntries`: every main component (only when
   * `src/main/cef` exists), then every plugin component, in scan order. The
   * plugin search is not guarded by an existence check, so a missing
   * `src/plugin` raises.
   */
  method DiscoverEntries(fw: Framework, mainScan: Scan, pluginScan: Scan)
    returns (r: Result<seq<Entry>, DiscoveryError>)
    ensures pluginScan.Missing? <==> r.Err?
    ensures r.Ok? ==> r.value == MainEntries(MainFiles(mainScan), fw) + PluginEntries(pluginScan.files, fw)
  {
    var entries: seq<Entry> := [];
    var mainFiles := MainFiles(mainScan);
    var i := 0;
    while i < |mainFiles|
      invariant 0 <= i <= |mainFiles|
      invariant entries == MainEntries(mainFiles[..i], fw)
    {
      assert entries + [MainEntry(mainFiles[i], fw)] == MainEntries(mainFiles[..i + 1], fw) by {
        MapSeqStep(MainEntryOf(fw), mainFiles, i);
      }
      entries := entries + [MainEntry(mainFiles[i], fw)];
      i := i + 1;
    }
    assert mainFiles[..i] == mainFiles;
    if pluginScan.Missing? {
      return Err(PluginDirectoryMissing);
    }
    var pluginFiles := pluginScan.files;
    var mains := entries;
    var j := 0;
    while j < |pluginFiles|
      invariant 0 <= j <= |pluginFiles|
      invariant entries == mains + PluginEntries(pluginFiles[..j], fw)
    {
      assert entries + [PluginEntry(pluginFiles[j], fw)] == mains + PluginEntries(pluginFiles[..j + 1], fw) by {
        MapSeqStep(PluginEntryOf(fw), pluginFiles, j);
        AppendAssoc(mains, PluginEntries(pluginFiles[..j], fw), [PluginEntry(pluginFiles[j], fw)]);
      }
      entries := entries + [PluginEntry(pluginFiles[j], fw)];
      j := j + 1;
    }
    assert pluginFiles[..j] == pluginFiles;
    return Ok(entries);
  }

  /** Plugin entry names: `plugin_`, the plugin path with every `/` turned into `_`, `_`, the component. */
  lemma PluginEntryName(f: RelPath, fw: Framework)
    requires IsPluginFile(f)
    ensures PluginEntry(f, fw).name == PluginName(f, fw)
    ensures PluginEntry(f, fw).owner == Plugin(Join(f[..|f| - 2], "/"))
  {
    var dirs := f[..|f| - 2];
    assert forall i :: 0 <= i < |dirs| ==> '/' !in dirs[i] by {
      forall i | 0 <= i < |dirs| ensures '/' !in dirs[i] { assert dirs[i] == f[i]; }
    }
    if |dirs| == 0 {
      assert PluginPathOf(f) == "";
    } else {
      ReplaceAllJoin(dirs, '/', '_');
    }
  }

  /**
   * The entry list: main components first (`main_<name>`), then plugin
   * components (`plugin_<path with _>_<name>`), each list in scan order.
   */
  lemma EntriesLayout(mainFiles: seq<RelPath>, pluginFiles: seq<RelPath>, fw: Framework)
    requires forall i :: 0 <= i < |pluginFiles| ==> IsPluginFile(pluginFiles[i])
    ensures var es := MainEntries(mainFiles, fw) + PluginEntries(pluginFiles, fw);
      && |es| == |mainFiles| + |pluginFiles|
      && (forall i :: 0 <= i < |mainFiles| ==>
            es[i].owner == MainCode && es[i].input == mainFiles[i]
            && es[i].name == "main_" + Basename(mainFiles[i], Extension(fw)))
      && (forall k :: |mainFiles| <= k < |es| ==>
            es[k].owner.Plugin? && es[k].input == pluginFiles[k - |mainFiles|]
            && es[k].name == PluginName(pluginFiles[k - |mainFiles|], fw))
  {
    var es := MainEntries(mainFiles, fw) + PluginEntries(pluginFiles, fw);
    forall i | 0 <= i < |mainFiles|
      ensures es[i].owner == MainCode && es[i].input == mainFiles[i]
            && es[i].name == "main_" + Basename(mainFiles[i], Extension(fw))
    {
      MainLayoutAt(mainFiles, pluginFiles, fw, i);
    }
    forall k | |mainFiles| <= k < |es|
      ensures es[k].owner.Plugin? && es[k].input == pluginFiles[k - |mainFiles|]
            && es[k].name == PluginName(pluginFiles[k - |mainFiles|], fw)
    {
      PluginLayoutAt(mainFiles, pluginFiles, fw, k);
    }
  }

  lemma MainLayoutAt(mainFiles: seq<RelPath>, pluginFiles: seq<RelPath>, fw: Framework, i: nat)
    requires i < |mainFiles|
    ensures var es := MainEntries(mainFiles, fw) + PluginEntries(pluginFiles, fw);
      && i < |es|
      && es[i].owner == MainCode && es[i].input == mainFiles[i]
      && es[i].name == "main_" + Basename(mainFiles[i], Extension(fw))
  {
    var ms := MainEntries(mainFiles, fw);
    MainEntriesAt(mainFiles, i, fw);
    assert (ms + PluginEntries(pluginFiles, fw))[i] == ms[i];
  }

  lemma PluginLayoutAt(mainFiles: seq<RelPath>, pluginFiles: seq<RelPath>, fw: Framework, k: nat)
    requires |mainFiles| <= k < |mainFiles| + |pluginFiles|
    requires IsPluginFile(pluginFiles[k - |mainFiles|])
    ensures var es := MainEntries(mainFiles, fw) + PluginEntries(pluginFiles, fw);
      && k < |es|
      && es[k].owner.Plugin? && es[k].input == pluginFiles[k - |mainFiles|]
      && es[k].name == PluginName(pluginFiles[k - |mainFiles|], fw)
  {
    var ms := MainEntries(mainFiles, fw);
    var ps := PluginEntries(pluginFiles, fw);
    var j := k - |mainFiles|;
    PluginEntriesAt(pluginFiles, j, fw);
    PluginEntryName(pluginFiles[j], fw);
    assert (ms + ps)[k] == ps[j];
  }

  /** The output name of a plugin component, written out from its path segments. */
  function PluginName(f: RelPath, fw: Framework): string
    requires IsPluginFile(f)
  {
    "plugin_" + Join(f[..|f| - 2], "_") + "_" + Basename(f, Extension(fw))
  }

  /** No main component shares its output name with a plugin component. */
  lemma MainAndPluginNamesDiffer(mainFiles: seq<RelPath>, pluginFiles: seq<RelPath>, fw: Framework)
    ensures var es := MainEntries(mainFiles, fw) + PluginEntries(pluginFiles, fw);
      forall i, j :: 0 <= i < |mainFiles| <= j < |es| ==> es[i].name != es[j].name
  {
    var ms := MainEntries(mainFiles, fw);
    var ps := PluginEntries(pluginFiles, fw);
    var es := ms + ps;
    forall i, j | 0 <= i < |mainFiles| <= j < |es| ensures es[i].name != es[j].name {
      var k := j - |mainFiles|;
      MainEntriesAt(mainFiles, i, fw);
      PluginEntriesAt(pluginFiles, k, fw);
      assert es[i] == ms[i] && es[j] == ps[k];
      NameHeads(mainFiles[i], pluginFiles[k], fw);
    }
  }

  /** Main output names start with `m`, plugin output names with `p`. */
  lemma NameHeads(mf: RelPath, pf: RelPath, fw: Framework)
    ensures MainEntry(mf, fw).name != PluginEntry(pf, fw).name
  {
    var m, p := MainEntry(mf, fw).name, PluginEntry(pf, fw).name;
    assert m == "main_" + Basename(mf, Extension(fw));
    assert m[0] == 'm';
    assert p[0] == 'p';
  }

  /**
   * Output names are not unique across plugins: for any names `a`, `b`, `c`,
   * the files `a_b/cef/c.vue`, `a/cef/b_c.vue` and `a/b/cef/c.vue` all give
   * `plugin_a_b_c`.
   */
  lemma PluginNamesCollide(a: string, b: string, c: string)
    requires '/' !in a && '/' !in b && c != "" && '/' !in c
    ensures PluginEntry([a + "_" + b, "cef", c + ".vue"], Vue).name == "plugin_" + a + "_" + b + "_" + c
    ensures PluginEntry([a, "cef", b + "_" + c + ".vue"], Vue).name == "plugin_" + a + "_" + b + "_" + c
    ensures PluginEntry([a, b, "cef", c + ".vue"], Vue).name == "plugin_" + a + "_" + b + "_" + c
  {
    assert '/' !in a + "_" + b;
    LiteralEntryName(a + "_" + b, c + ".vue", c);
    PrefixRegroup(a, b);
    var q := "plugin_" + a + "_";
    LiteralEntryName(a, b + "_" + c + ".vue", b + "_" + c);
    AppendAssoc(q, b + "_", c);
    AppendAssoc(q, b, "_");
    NestedEntryName(a, b, c);
  }

  /** `"plugin_" + (a + "_" + b)` regrouped to the left. */
  lemma PrefixRegroup(a: string, b: string)
    ensures "plugin_" + (a + "_" + b) == "plugin_" + a + "_" + b
  {
    AppendAssoc("plugin_", a + "_", b);
    AppendAssoc("plugin_", a, "_");
  }

  lemma NestedEntryName(a: string, b: string, c: string)
    requires '/' !in a && '/' !in b && c != ""
    ensures PluginEntry([a, b, "cef", c + ".vue"], Vue).name == "plugin_" + a + "_" + b + "_" + c
  {
    var f := [a, b, "cef", c + ".vue"];
    assert f[..|f| - 2] == [a, b];
    assert PluginPathOf(f) == Join([a, b], "/") == a + "/" + b;
    ReplaceAllJoin([a, b], '/', '_');
    assert ReplaceAll(PluginPathOf(f), '/', '_') == Join([a, b], "_") == a + "_" + b;
    var base := c + ".vue";
    assert base[|base| - 4..] == ".vue";
    assert Basename(f, ".vue") == c;
    PrefixRegroup(a, b);
  }

  /** A plugin `dir` directly holding `cef/<component>.vue`. */
  lemma LiteralEntryName(dir: string, base: string, component: string)
    requires '/' !in dir && component != "" && base == component + ".vue"
    ensures PluginEntry([dir, "cef", base], Vue).name == "plugin_" + dir + "_" + component
    ensures PluginEntry([dir, "cef", base], Vue).owner == Plugin(dir)
    ensures PluginEntry([dir, "cef", base], Vue).component == component
  {
    var f := [dir, "cef", base];
    assert f[..|f| - 2] == [dir];
    ReplaceUnchanged(dir, '/', '_');
    assert base[|base| - 4..] == ".vue";
    assert base[..|base| - 4] == component;
  }

  /**
   * A plugin directory named `main` gives each of its components the
   * constructor name of the main component with the same file name, though
   * the output names differ.
   */
  lemma MainPluginConstructorCollision(component: string)
    requires component != ""
    ensures var m := MainEntry([component + ".vue"], Vue);
      var p := PluginEntry(["main", "cef", component + ".vue"], Vue);
      && m.name == "main_" + component
      && p.name == "plugin_main_" + component
      && m.name != p.name
      && VarName(m) == VarName(p) == CreateIdentifier(component, "main")
  {
    var base := component + ".vue";
    LiteralMainEntry(base, component);
    LiteralEntryName("main", base, component);
    assert "plugin_" + "main" + "_" == "plugin_main_";
    var m := MainEntry([base], Vue);
    var p := PluginEntry(["main", "cef", base], Vue);
    assert m.name[0] != p.name[0];
  }

  /** A main component `<component>.vue` directly in `src/main/cef`. */
  lemma LiteralMainEntry(base: string, component: string)
    requires component != "" && base == component + ".vue"
    ensures MainEntry([base], Vue) == Entry([base], "main_" + component, MainCode, component)
  {
    assert base[|base| - 4..] == ".vue";
    assert base[..|base| - 4] == component;
  }

  /** The constructor name shared by `src/main/cef/X.vue` and `src/plugin/main/cef/X.vue`. */
  lemma MainXName()
    ensures CreateIdentifier("X", "main") == "CefMainX"
  {
    SegmentsOfPlain("main");
    MainXWords();
    MainXCapJoin();
    calc {
      CreateIdentifier("X", "main");
      "Cef" + CapJoin(Words(Segments("main") + ["X"]));
      { assert Segments("main") + ["X"] == ["main", "X"]; }
      "Cef" + CapJoin(Words(["main", "X"]));
      "Cef" + "MainX";
    }
  }

  lemma MainXWords()
    ensures Words(["main", "X"]) == ["main", "X"]
  {
    assert AllIdentifierChars("main") by {
      assert forall i :: 0 <= i < 4 ==> IsAsciiLower("main"[i]);
    }
    RunsOfIdentifier("main");
    assert AllIdentifierChars("X") by {
      assert IsAsciiUpper("X"[0]);
    }
    RunsOfIdentifier("X");
    assert Words(["X"]) == Runs("X") + Words([]);
    assert Words(["main", "X"]) == Runs("main") + Words(["X"]);
  }

  lemma MainXCapJoin()
    ensures CapJoin(["main", "X"]) == "MainX"
  {
    assert CapJoin(["X"]) == Capitalize("X") + CapJoin([]);
    assert Capitalize("X") == "X";
    assert Capitalize("main") == "Main";
    assert CapJoin(["main", "X"]) == Capitalize("main") + CapJoin(["X"]);
  }

  /** `componentVarNames`: `entries.reduce((acc, e) => { acc[e.name] = e.varName; ... }, {})`. */
  function VarNameTable(es: seq<Entry>): map<string, string>
  {
    if |es| == 0 then map[] else VarNameTable(es[..|es| - 1])[es[|es| - 1].name := VarName(es[|es| - 1])]
  }

  /**
   * Every entry name is a key, and a name maps to the constructor of the LAST
   * entry carrying it: a later entry overwrites an earlier one.
   */
  lemma LaterEntryWins(es: seq<Entry>)
    ensures VarNameTable(es).Keys == set e | e in es :: e.name
    ensures forall i :: 0 <= i < |es| && (forall j :: i < j < |es| ==> es[j].name != es[i].name)
              ==> VarNameTable(es)[es[i].name] == VarName(es[i])
  {
    TableKeys(es);
    forall i | 0 <= i < |es| && (forall j :: i < j < |es| ==> es[j].name != es[i].name)
      ensures VarNameTable(es)[es[i].name] == VarName(es[i])
    {
      TableValueAt(es, i);
    }
  }

  lemma {:induction false} TableKeys(es: seq<Entry>)
    ensures VarNameTable(es).Keys == set e | e in es :: e.name
    decreases |es|
  {
    if |es| > 0 {
      var init := es[..|es| - 1];
      var last := es[|es| - 1];
      TableKeys(init);
      assert es == init + [last];
      var names, initNames := set e | e in es :: e.name, set e | e in init :: e.name;
      forall n | n in names ensures n in initNames || n == last.name {
        var e :| e in es && e.name == n;
        if e != last { assert e in init; }
      }
      forall n | n in initNames ensures n in names {
        var e :| e in init && e.name == n;
        assert e in es;
      }
      assert last in es;
      assert names == initNames + {last.name};
    }
  }

  lemma {:induction false} TableValueAt(es: seq<Entry>, i: nat)
    requires i < |es|
    requires forall j :: i < j < |es| ==> es[j].name != es[i].name
    ensures es[i].name in VarNameTable(es) && VarNameTable(es)[es[i].name] == VarName(es[i])
    decreases |es|
  {
    var init := es[..|es| - 1];
    if i < |init| {
      assert init[i] == es[i];
      forall j | i < j < |init| ensures init[j].name != init[i].name {
        assert init[j] == es[j];
      }
      TableValueAt(init, i);
    }
  }

  /** The reduce loop that builds `componentVarNames`. */
  method ComponentVarNames(entries: seq<Entry>) returns (acc: map<string, string>)
    ensures acc == VarNameTable(entries)
    ensures acc.Keys == set e | e in entries :: e.name
  {
    acc := map[];
    var k := 0;
    while k < |entries|
      invariant 0 <= k <= |entries|
      invariant acc == VarNameTable(entries[..k])
    {
      assert entries[..k + 1][..k] == entries[..k];
      acc := acc[entries[k].name := VarName(entries[k])];
      k := k + 1;
    }
    assert entries[..k] == entries;
    LaterEntryWins(entries);
  }
}
