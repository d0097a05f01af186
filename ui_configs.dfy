/**
 * The overlay targets built from the discovered UI components: one IIFE bundle
 * per component (`generateVueConfig` in rollup.config.js, `generateVueConfigs`
 * in scripts/rollup/vue.js, `generateReactConfigs` in scripts/rollup/react.js),
 * the separate page target of the two scripts under scripts/rollup/, the host
 * page the targets emit (`generateHtml`, `createHtmlPlugin`), and the default
 * export list of rollup.config.js.
 *
 * The host page is modelled by its structure — the stylesheet links, the mount
 * divs, the script tags, the mount statements and the registry data — not as
 * its literal HTML text.
 */
module UiConfigs {
  import opened Wrappers
  import opened Discovery
  import opened Strings
  import Targets

  /** The three scripts that build overlay components. */
  datatype UiScript = RootScript | VueScript | ReactScript

  function FrameworkOf(script: UiScript): Framework
  {
    match script
    case RootScript => Vue
    case VueScript => Vue
    case ReactScript => React
  }

  /** `dist/client_packages/cef`, where every overlay bundle and the page go. */
  const OutputDir: seq<string> := ["dist", "client_packages", "cef"]

  /** `output.globals`: a runtime module the page loads from a CDN and the global it defines. */
  datatype Global = Global(moduleId: string, globalName: string)

  function RuntimeGlobals(fw: Framework): seq<Global>
  {
    match fw
    case Vue => [Global("vue", "Vue")]
    case React => [Global("react", "React"), Global("react-dom", "ReactDOM")]
  }

  /** `external`: the framework runtime modules. */
  function RuntimeModules(fw: Framework): seq<string>
  {
    match fw
    case Vue => ["vue"]
    case React => ["react", "react-dom"]
  }

  datatype UiConfig =
    | ComponentBundle(input: RelPath, dir: seq<string>, format: Targets.Format, bundleName: string,
                      globals: seq<Global>, external: seq<string>, entryFile: string,
                      cssFile: Option<string>, emitsPage: bool)
    | PageBundle(entryModule: string, dir: seq<string>, format: Targets.Format)

  /**
   * The bundle of one component. rollup.config.js and react.js extract the
   * component's styles to `<name>.css`; vue.js extracts nothing. Only
   * rollup.config.js attaches the page generator to every component bundle.
   */
  function ComponentConfigOf(script: UiScript, e: Entry): UiConfig
  {
    var fw := FrameworkOf(script);
    ComponentBundle(e.input, OutputDir, Targets.Iife, VarName(e), RuntimeGlobals(fw), RuntimeModules(fw),
                    e.name + ".js", if script == VueScript then None else Some(e.name + ".css"),
                    script == RootScript)
  }

  /** The page target of vue.js and react.js: the empty module `virtual-empty.js` as ES module, emitting the page. */
  const PageConfig: UiConfig := PageBundle("virtual-empty.js", OutputDir, Targets.Esm)

  /** `vueConfigs` / `reactConfigs`: nothing without entries, else one bundle per entry, then the page target. */
  function UiConfigsOf(script: UiScript, entries: seq<Entry>): seq<UiConfig>
  {
    if |entries| == 0 then []
    else
      seq(|entries|, k requires 0 <= k < |entries| => ComponentConfigOf(script, entries[k]))
      + (if script == RootScript then [] else [PageConfig])
  }

  /** Every module a component bundle leaves external is one the page provides as a global. */
  lemma ExternalsAreRuntimeGlobals(fw: Framework)
    ensures |RuntimeModules(fw)| == |RuntimeGlobals(fw)|
    ensures forall k :: 0 <= k < |RuntimeModules(fw)| ==> RuntimeModules(fw)[k] == RuntimeGlobals(fw)[k].moduleId
  {
  }

  /** The overlay targets, bundle by bundle, as `UiConfigsOf` builds them. */
  lemma UiConfigsLayout(script: UiScript, entries: seq<Entry>)
    ensures var r := UiConfigsOf(script, entries);
      && (|entries| == 0 ==> r == [])
      && (|entries| > 0 ==> |r| == |entries| + (if script == RootScript then 0 else 1))
      && (|entries| > 0 && script != RootScript ==> r[|r| - 1] == PageConfig)
      && forall k :: 0 <= k < |entries| ==>
           var c := r[k];
           && c.ComponentBundle? && c.input == entries[k].input && c.dir == OutputDir
           && c.format == Targets.Iife && c.bundleName == VarName(entries[k])
           && c.entryFile == entries[k].name + ".js"
           && c.external == RuntimeModules(FrameworkOf(script))
           && (c.cssFile.Some? <==> script != VueScript)
           && (c.cssFile.Some? ==> c.cssFile.value == entries[k].name + ".css")
  {
  }

  /**
   * Every component bundle writes into the one output directory, so two of
   * them write the same script, and (outside vue.js) the same stylesheet,
   * exactly when their entries have the same name.
   */
  lemma SameOutputIffSameName(script: UiScript, entries: seq<Entry>, k: nat, j: nat)
    requires k < |entries| && j < |entries|
    ensures var cs := UiConfigsOf(script, entries);
      && cs[k].dir == cs[j].dir
      && (cs[k].entryFile == cs[j].entryFile <==> entries[k].name == entries[j].name)
      && (script != VueScript ==> (cs[k].cssFile == cs[j].cssFile <==> entries[k].name == entries[j].name))
  {
    UiConfigsLayout(script, entries);
    var cs := UiConfigsOf(script, entries);
    if cs[k].entryFile == cs[j].entryFile {
      SuffixCancel(entries[k].name, entries[j].name, ".js");
    }
    if script != VueScript && cs[k].cssFile == cs[j].cssFile {
      SuffixCancel(entries[k].name, entries[j].name, ".css");
    }
  }

  /**
   * Two different plugin components can end up in the same file: the bundles
   * of `a_b/cef/c.vue` and `a/cef/b_c.vue` both write `plugin_a_b_c.js`, so
   * one overwrites the other.
   */
  lemma PluginBundlesOverwrite(script: UiScript, a: string, b: string, c: string)
    requires script != ReactScript
    requires '/' !in a && '/' !in b && c != "" && '/' !in c
    ensures var entries := [PluginEntry([a + "_" + b, "cef", c + ".vue"], Vue),
                            PluginEntry([a, "cef", b + "_" + c + ".vue"], Vue)];
      var cs := UiConfigsOf(script, entries);
      && cs[0].input != cs[1].input
      && cs[0].dir == cs[1].dir
      && cs[0].entryFile == cs[1].entryFile == "plugin_" + a + "_" + b + "_" + c + ".js"
  {
    var entries := [PluginEntry([a + "_" + b, "cef", c + ".vue"], Vue),
                    PluginEntry([a, "cef", b + "_" + c + ".vue"], Vue)];
    PluginNamesCollide(a, b, c);
    SameOutputIffSameName(script, entries, 0, 1);
    UiConfigsLayout(script, entries);
    assert entries[0].input[0] != entries[1].input[0] by {
      assert |a + "_" + b| != |a|;
    }
  }

  // ---------------------------------------------------------------- the host page

  /** A mount point: `<div id=...>`, whether it starts with `cef-hidden`, its inline z-index. */
  datatype Div = Div(id: string, hidden: bool, zIndex: Option<int>)

  /** `const <binding> = Vue.createApp(<app>); <binding>.mount('<target>');` */
  datatype Mount = Mount(binding: string, app: string, target: string)

  datatype Page = Page(
    stylesheets: seq<string>,
    divs: seq<Div>,
    scripts: seq<string>,
    mounts: seq<Mount>,
    registry: seq<string>,
    constructors: map<string, string>)

  /**
   * The page for a list of entries. rollup.config.js writes plain visible divs
   * and mounts `<varName>App`; vue.js writes hidden divs at z-index 1, mounts
   * `<name>App` and lists the components in `window.CEF`; react.js writes the
   * same divs and, instead of mount statements, the name-to-constructor table
   * the registry renders from.
   */
  function PageOf(script: UiScript, entries: seq<Entry>): Page
  {
    var n := |entries|;
    var managed := script != RootScript;
    Page(
      ["./main.css"] + seq(n, k requires 0 <= k < n => "./" + entries[k].name + ".css"),
      seq(n, k requires 0 <= k < n => Div(entries[k].name, managed, if managed then Some(1) else None)),
      seq(n, k requires 0 <= k < n => "./" + entries[k].name + ".js"),
      match script
        case RootScript => seq(n, k requires 0 <= k < n =>
                              Mount(VarName(entries[k]) + "App", VarName(entries[k]), "#" + entries[k].name))
        case VueScript => seq(n, k requires 0 <= k < n =>
                             Mount(entries[k].name + "App", VarName(entries[k]), "#" + entries[k].name))
        case ReactScript => [],
      if managed then seq(n, k requires 0 <= k < n => entries[k].name) else [],
      if script == ReactScript then VarNameTable(entries) else map[])
  }

  /**
   * The page loads exactly the bundles the targets write: script `k` is the
   * output file of component bundle `k`, mount point `k` has the entry's name,
   * and every mount (vue.js, rollup.config.js) instantiates the global that
   * bundle `k` defines and mounts it on div `k`.
   */
  lemma PageMatchesBundles(script: UiScript, entries: seq<Entry>)
    requires |entries| > 0
    ensures var p := PageOf(script, entries);
      var cs := UiConfigsOf(script, entries);
      && |p.scripts| == |p.divs| == |entries| && |p.stylesheets| == |entries| + 1
      && p.stylesheets[0] == "./main.css"
      && forall k :: 0 <= k < |entries| ==>
           && p.divs[k].id == entries[k].name
           && p.scripts[k] == "./" + cs[k].entryFile
           && p.stylesheets[k + 1] == "./" + entries[k].name + ".css"
           && (script != ReactScript ==>
                 |p.mounts| == |entries| && p.mounts[k].app == cs[k].bundleName
                 && p.mounts[k].target == "#" + p.divs[k].id)
  {
    PageShape(script, entries);
    forall k | 0 <= k < |entries|
      ensures var p := PageOf(script, entries);
        var cs := UiConfigsOf(script, entries);
        && p.divs[k].id == entries[k].name
        && p.scripts[k] == "./" + cs[k].entryFile
        && p.stylesheets[k + 1] == "./" + entries[k].name + ".css"
        && (script != ReactScript ==>
              |p.mounts| == |entries| && p.mounts[k].app == cs[k].bundleName
              && p.mounts[k].target == "#" + p.divs[k].id)
    {
      PageMatchesBundleAt(script, entries, k);
    }
  }

  lemma PageMatchesBundleAt(script: UiScript, entries: seq<Entry>, k: nat)
    requires k < |entries|
    ensures var p := PageOf(script, entries);
      var cs := UiConfigsOf(script, entries);
      && k < |p.divs| && k < |p.scripts| && k + 1 < |p.stylesheets| && k < |cs| && cs[k].ComponentBundle?
      && p.divs[k].id == entries[k].name
      && p.scripts[k] == "./" + cs[k].entryFile
      && p.stylesheets[k + 1] == "./" + entries[k].name + ".css"
      && (script != ReactScript ==>
            |p.mounts| == |entries| && p.mounts[k].app == cs[k].bundleName
            && p.mounts[k].target == "#" + p.divs[k].id)
  {
    PageAt(script, entries, k);
    BundleAt(script, entries, k);
    PageBundleJoin(script, PageOf(script, entries), UiConfigsOf(script, entries), entries, k);
  }

  /** The step that joins the facts about the page and about the bundles at index `k`. */
  lemma PageBundleJoin(script: UiScript, p: Page, cs: seq<UiConfig>, entries: seq<Entry>, k: nat)
    requires k < |entries|
    requires && |p.scripts| == |p.divs| == |entries| && |p.stylesheets| == |entries| + 1
             && p.divs[k].id == entries[k].name
             && p.scripts[k] == "./" + entries[k].name + ".js"
             && p.stylesheets[k + 1] == "./" + entries[k].name + ".css"
             && (script != ReactScript ==>
                   |p.mounts| == |entries| && p.mounts[k].app == VarName(entries[k])
                   && p.mounts[k].target == "#" + entries[k].name)
    requires && k < |cs| && cs[k].ComponentBundle?
             && cs[k].entryFile == entries[k].name + ".js"
             && cs[k].bundleName == VarName(entries[k])
    ensures && k < |p.divs| && k < |p.scripts| && k + 1 < |p.stylesheets| && k < |cs| && cs[k].ComponentBundle?
            && p.divs[k].id == entries[k].name
            && p.scripts[k] == "./" + cs[k].entryFile
            && p.stylesheets[k + 1] == "./" + entries[k].name + ".css"
            && (script != ReactScript ==>
                  |p.mounts| == |entries| && p.mounts[k].app == cs[k].bundleName
                  && p.mounts[k].target == "#" + p.divs[k].id)
  {
  }

  lemma PageShape(script: UiScript, entries: seq<Entry>)
    ensures var p := PageOf(script, entries);
      && |p.scripts| == |p.divs| == |entries| && |p.stylesheets| == |entries| + 1
      && p.stylesheets[0] == "./main.css"
      && (script != ReactScript ==> |p.mounts| == |entries|)
  {
  }

  lemma PageAt(script: UiScript, entries: seq<Entry>, k: nat)
    requires k < |entries|
    ensures var p := PageOf(script, entries);
      && |p.scripts| == |p.divs| == |entries| && |p.stylesheets| == |entries| + 1
      && p.divs[k].id == entries[k].name
      && p.scripts[k] == "./" + entries[k].name + ".js"
      && p.stylesheets[k + 1] == "./" + entries[k].name + ".css"
      && (script != ReactScript ==>
            |p.mounts| == |entries| && p.mounts[k].app == VarName(entries[k])
            && p.mounts[k].target == "#" + entries[k].name)
  {
  }

  lemma BundleAt(script: UiScript, entries: seq<Entry>, k: nat)
    requires k < |entries|
    ensures var cs := UiConfigsOf(script, entries);
      && k < |cs|
      && cs[k].ComponentBundle?
      && cs[k].entryFile == entries[k].name + ".js"
      && cs[k].bundleName == VarName(entries[k])
  {
    UiConfigsLayout(script, entries);
  }

  /** In rollup.config.js and react.js every per-component stylesheet the page links is one a bundle extracts. */
  lemma LinkedStylesheetsAreBuilt(script: UiScript, entries: seq<Entry>)
    requires script != VueScript
    ensures var p := PageOf(script, entries);
      var cs := UiConfigsOf(script, entries);
      forall k :: 0 <= k < |entries| ==> cs[k].cssFile.Some? && p.stylesheets[k + 1] == "./" + cs[k].cssFile.value
  {
    UiConfigsLayout(script, entries);
  }

  /** vue.js links `<name>.css` for every component although its bundles extract no stylesheet. */
  lemma VueLinksUnbuiltStylesheets(entries: seq<Entry>)
    requires |entries| > 0
    ensures var p := PageOf(VueScript, entries);
      var cs := UiConfigsOf(VueScript, entries);
      forall k :: 0 <= k < |entries| ==> p.stylesheets[k + 1] == "./" + entries[k].name + ".css" && cs[k].cssFile == None
  {
    UiConfigsLayout(VueScript, entries);
  }

  /**
   * Under `window.CEF` (vue.js, react.js) every mount point starts hidden at
   * z-index 1 and the registry lists the entry names in order; react.js maps
   * every listed name to a constructor.
   */
  lemma ManagedPageStartsHidden(script: UiScript, entries: seq<Entry>)
    requires script != RootScript
    ensures var p := PageOf(script, entries);
      && p.registry == seq(|entries|, k requires 0 <= k < |entries| => p.divs[k].id)
      && (forall k :: 0 <= k < |entries| ==> p.divs[k].hidden && p.divs[k].zIndex == Some(1))
      && (script == ReactScript ==> forall k :: 0 <= k < |entries| ==> p.registry[k] in p.constructors)
  {
    if script == ReactScript {
      LaterEntryWins(entries);
      var p := PageOf(script, entries);
      forall k | 0 <= k < |entries| ensures p.registry[k] in p.constructors {
        assert entries[k] in entries;
      }
    }
  }

  // ---------------------------------------------------------------- rollup.config.js default export

  datatype BuildConfig =
    | TargetBuild(target: Targets.TargetConfig)
    | StylesheetBuild(input: string, file: seq<string>)
    | UiBuild(ui: UiConfig)

  /** `mainCssConfig`: `vue/main.css` through PostCSS to `dist/client_packages/cef/main.css`. */
  const MainCssConfig: BuildConfig := StylesheetBuild("vue/main.css", OutputDir + ["main.css"])

  /** `export default [server, client, mainCssConfig, ...vueConfigs]`. */
  function RootExport(server: Targets.TargetConfig, client: Targets.TargetConfig, entries: seq<Entry>): seq<BuildConfig>
  {
    var ui := UiConfigsOf(RootScript, entries);
    [TargetBuild(server), TargetBuild(client), MainCssConfig] + seq(|ui|, k requires 0 <= k < |ui| => UiBuild(ui[k]))
  }

  /**
   * The default export: server target, client target, the main stylesheet
   * (written next to the page, as its first link expects), then one component
   * bundle per entry in entry order.
   */
  lemma RootExportLayout(server: Targets.TargetConfig, client: Targets.TargetConfig, entries: seq<Entry>)
    ensures var r := RootExport(server, client, entries);
      && |r| == 3 + |entries|
      && r[0] == TargetBuild(server) && r[1] == TargetBuild(client)
      && r[2].StylesheetBuild? && r[2].file == OutputDir + [PageOf(RootScript, entries).stylesheets[0][2..]]
      && forall k :: 0 <= k < |entries| ==> r[3 + k] == UiBuild(ComponentConfigOf(RootScript, entries[k]))
  {
    UiConfigsLayout(RootScript, entries);
    assert "./main.css"[2..] == "main.css";
  }
}
