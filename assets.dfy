/**
 * Static assets of the React overlay build (`copyStaticFiles` in
 * scripts/rollup/react.js) and the lookup the page offers for them
 * (`CEF.getStaticPath`, documented in src/plugin/types.cef.d.ts).
 *
 * Main assets live below `src/main/cef/static` and are emitted to
 * `static/<rel>`; the assets of a plugin live below a `cef/static` directory
 * somewhere in `src/plugin` and are emitted to `static/plugins/<pluginPath>/<rel>`.
 * Directory searches are abstract ordered lists, as in the discovery model.
 */
module Assets {
  import opened Strings
  import opened Naming
  import opened Discovery

  /** The extensions the copy pattern accepts, in the order it lists them. */
  function AssetExtensions(): seq<string>
  {
    ["jpg", "jpeg", "png", "gif", "svg", "webp", "ico", "mp3", "wav", "ogg", "pdf", "ttf", "woff", "woff2"]
  }

  predicate EndsWith(s: string, suffix: string)
  {
    |suffix| <= |s| && s[|s| - |suffix|..] == suffix
  }

  /**
   * A file the copy pattern (any depth, any name, one of the brace-listed
   * extensions) matches: its name ends in `.` and one of the asset
   * extensions, compared case-sensitively. The search matches with dot files
   * allowed, so hidden names and hidden directories count too.
   */
  predicate IsAsset(f: RelPath)
  {
    |f| >= 1 && EndsWithAny(f[|f| - 1], AssetExtensions())
  }

  /** Hidden directories and hidden file names are no exception: `.cache/.logo.png` is copied. */
  lemma HiddenAssetCopied(target: seq<string>)
    ensures AssetTargets(target, [[".cache", ".logo.png"]]) == [target + [".cache", ".logo.png"]]
  {
    var name := ".logo.png";
    assert EndsWith(name, "." + "png") by {
      assert name[|name| - 4..] == ".png";
    }
    assert EndsWithAny(name, AssetExtensions()[2..]);
    assert EndsWithAny(name, AssetExtensions()[1..]);
    assert EndsWithAny(name, AssetExtensions());
    assert [[".cache", ".logo.png"]][..0] == [];
  }

  /** Whether `name` ends in `.` followed by one of `exts`. */
  predicate EndsWithAny(name: string, exts: seq<string>)
  {
    |exts| > 0 && (EndsWith(name, "." + exts[0]) || EndsWithAny(name, exts[1..]))
  }

  /** A `cef/static` directory found below `src/plugin`, with every file below it. */
  datatype StaticDir = StaticDir(dir: RelPath, files: seq<RelPath>)

  /** The directory search in `src/plugin`, which raises when that directory is missing. */
  datatype PluginStaticScan = PluginRootMissing | StaticDirs(dirs: seq<StaticDir>)

  /** Where main assets go: `static`. */
  const MainTargetDir: seq<string> := ["static"]

  /** Where the assets of the plugin owning static directory `dir` go: `static/plugins/<pluginPath>`. */
  function PluginTargetDir(dir: RelPath): seq<string>
  {
    ["static", "plugins"] + Segments(PluginPathOf(dir))
  }

  /** The targets `copyFiles(source, target, pattern)` emits for `files`: every asset below `target`, in order. */
  function AssetTargets(target: seq<string>, files: seq<RelPath>): (ts: seq<seq<string>>)
  {
    if |files| == 0 then []
    else
      var last := files[|files| - 1];
      AssetTargets(target, files[..|files| - 1]) + (if IsAsset(last) then [target + last] else [])
  }

  /** `copyFiles` emits exactly the matching files, each below the target directory with its relative path kept. */
  lemma {:induction false} AssetTargetsExactly(target: seq<string>, files: seq<RelPath>)
    ensures forall t :: t in AssetTargets(target, files) <==> exists k :: 0 <= k < |files| && IsAsset(files[k]) && t == target + files[k]
    decreases |files|
  {
    if |files| > 0 {
      var init := files[..|files| - 1];
      AssetTargetsExactly(target, init);
      assert forall k :: 0 <= k < |init| ==> init[k] == files[k];
    }
  }

  function PluginAssets(dirs: seq<StaticDir>): seq<seq<string>>
  {
    if |dirs| == 0 then []
    else
      var last := dirs[|dirs| - 1];
      PluginAssets(dirs[..|dirs| - 1]) + AssetTargets(PluginTargetDir(last.dir), last.files)
  }

  lemma PluginAssetsStep(dirs: seq<StaticDir>, d: nat)
    requires d < |dirs|
    ensures PluginAssets(dirs[..d + 1]) == PluginAssets(dirs[..d]) + AssetTargets(PluginTargetDir(dirs[d].dir), dirs[d].files)
  {
    assert dirs[..d + 1][..d] == dirs[..d];
  }

  /** `copyFiles(sourcePath, targetPath, pattern)`: emit every matching file below `targetPath`, in search order. */
  method CopyFiles(target: seq<string>, files: seq<RelPath>) returns (emitted: seq<seq<string>>)
    ensures emitted == AssetTargets(target, files)
  {
    emitted := [];
    var j := 0;
    while j < |files|
      invariant 0 <= j <= |files|
      invariant emitted == AssetTargets(target, files[..j])
    {
      assert files[..j + 1][..j] == files[..j];
      if IsAsset(files[j]) {
        emitted := emitted + [target + files[j]];
      }
      j := j + 1;
    }
    assert files[..j] == files;
  }

  /**
   * `buildStart` of `copyStaticFiles`: the main assets (when `src/main/cef/static`
   * exists), then the assets of every plugin static directory in search order.
   * The plugin search is not guarded, so a missing `src/plugin` fails the build
   * after the main assets were emitted.
   */
  method CopyStaticFiles(mainStatic: Scan, plugins: PluginStaticScan) returns (emitted: seq<seq<string>>, failed: bool)
    ensures failed <==> plugins.PluginRootMissing?
    ensures emitted == AssetTargets(MainTargetDir, MainFiles(mainStatic))
                       + (if plugins.StaticDirs? then PluginAssets(plugins.dirs) else [])
  {
    emitted := CopyFiles(MainTargetDir, MainFiles(mainStatic));
    if plugins.PluginRootMissing? {
      return emitted, true;
    }
    var mains := emitted;
    var dirs := plugins.dirs;
    var d := 0;
    while d < |dirs|
      invariant 0 <= d <= |dirs|
      invariant emitted == mains + PluginAssets(dirs[..d])
    {
      var more := CopyFiles(PluginTargetDir(dirs[d].dir), dirs[d].files);
      PluginAssetsStep(dirs, d);
      AppendAssoc(mains, PluginAssets(dirs[..d]), more);
      emitted := emitted + more;
      d := d + 1;
    }
    assert dirs[..d] == dirs;
    return emitted, false;
  }

  /** `CEF.getStaticPath(pluginName, fileName)`: under the plugin's directory when the name is given and non-empty. */
  function GetStaticPath(pluginName: string, fileName: string): string
  {
    if pluginName != "" then "./" + "static" + "/" + "plugins" + "/" + pluginName + "/" + fileName
    else "./" + "static" + "/" + fileName
  }

  /** A path as the page requests it: `./` and the segments joined by `/`. */
  function PagePath(target: seq<string>): string
  {
    "./" + Join(target, "/")
  }

  /** Path segments without separators and without empty segments. */
  predicate CleanSegments(f: RelPath)
  {
    forall k :: 0 <= k < |f| ==> f[k] != "" && '/' !in f[k]
  }

  /** A target below a directory, as the page requests it. */
  lemma PagePathBelow(dir: seq<string>, f: RelPath)
    requires |dir| >= 1 && |f| >= 1
    ensures PagePath(dir + f) == "./" + Join(dir, "/") + "/" + Join(f, "/")
  {
    JoinAppend(dir, f, "/");
  }

  /** The page finds a main asset where the copy put it: `getStaticPath(null, rel)`. */
  lemma MainStaticPathAgrees(f: RelPath)
    requires |f| >= 1
    ensures PagePath(MainTargetDir + f) == GetStaticPath("", Join(f, "/"))
  {
    PagePathBelow(MainTargetDir, f);
  }

  /** The page finds a plugin asset where the copy put it: `getStaticPath(pluginPath, rel)`. */
  lemma PluginStaticPathAgrees(dir: RelPath, f: RelPath)
    requires |dir| >= 3 && CleanSegments(dir[..|dir| - 2])
    requires |f| >= 1
    ensures PagePath(PluginTargetDir(dir) + f) == GetStaticPath(PluginPathOf(dir), Join(f, "/"))
  {
    var dirs := dir[..|dir| - 2];
    PluginTargetDirOf(dir);
    JoinNonEmpty(dirs);
    PluginPagePath(dirs, f);
  }

  /** A target below `static/plugins/<dirs>`, as the page requests it. */
  lemma PluginPagePath(dirs: seq<string>, f: RelPath)
    requires |dirs| >= 1 && |f| >= 1
    ensures PagePath(["static", "plugins"] + dirs + f)
            == "./" + "static" + "/" + "plugins" + "/" + Join(dirs, "/") + "/" + Join(f, "/")
  {
    PagePathBelow(["static", "plugins"] + dirs, f);
    StaticPluginsJoin(dirs);
    var prefix := "static" + "/" + "plugins" + "/";
    AppendAssoc("./", prefix, Join(dirs, "/"));
    RegroupFour("./", "static", "/", "plugins", "/");
  }

  lemma RegroupFour(a: string, b: string, c: string, d: string, e: string)
    ensures a + (b + c + d + e) == a + b + c + d + e
  {
    AppendAssoc(a, b + c + d, e);
    AppendAssoc(a, b + c, d);
    AppendAssoc(a, b, c);
  }

  lemma StaticPluginsJoin(dirs: seq<string>)
    requires |dirs| >= 1
    ensures Join(["static", "plugins"] + dirs, "/") == "static" + "/" + "plugins" + "/" + Join(dirs, "/")
  {
    JoinTwoHeads("static", "plugins", dirs, "/");
  }

  lemma JoinTwoHeads(a: string, b: string, dirs: seq<string>, sep: string)
    requires |dirs| >= 1
    ensures Join([a, b] + dirs, sep) == a + sep + b + sep + Join(dirs, sep)
  {
    JoinCons(b, dirs, sep);
    JoinCons(a, [b] + dirs, sep);
    assert [a, b] + dirs == [a] + ([b] + dirs);
    AppendAssoc(a + sep, b + sep, Join(dirs, sep));
  }

  lemma {:induction false} NonEmptyOfClean(dirs: seq<string>)
    requires CleanSegments(dirs)
    ensures NonEmpty(dirs) == dirs
    decreases |dirs|
  {
    if |dirs| > 0 {
      NonEmptyOfClean(dirs[1..]);
      assert dirs == [dirs[0]] + dirs[1..];
    }
  }

  lemma JoinNonEmpty(dirs: seq<string>)
    requires |dirs| >= 1 && dirs[0] != ""
    ensures Join(dirs, "/") != ""
  {
    if |dirs| > 1 {
      assert Join(dirs, "/") == dirs[0] + "/" + Join(dirs[1..], "/");
    }
  }

  /**
   * A static directory directly below `src/plugin` has the empty plugin path:
   * its assets land in `static/plugins/`, while the lookup by that empty
   * plugin path, `getStaticPath(null, rel)`, gives `static/<rel>`.
   */
  lemma TopLevelPluginLookupMisses()
    ensures PagePath(PluginTargetDir(["cef", "static"]) + ["a.png"]) == "./static/plugins/a.png"
    ensures GetStaticPath(PluginPathOf(["cef", "static"]), "a.png") == "./static/a.png"
  {
    assert ["cef", "static"][..0] == [];
    assert PluginPathOf(["cef", "static"]) == "";
    assert ["static", "plugins"] + Segments("") + ["a.png"] == ["static", "plugins", "a.png"];
    assert Join(["static", "plugins", "a.png"], "/") == "static/plugins/a.png";
  }

  /** Only the main lookup with the `plugins/` prefix written out finds such an asset. */
  lemma TopLevelPluginMainLookup()
    ensures PagePath(PluginTargetDir(["cef", "static"]) + ["a.png"]) == GetStaticPath("", "plugins/a.png")
  {
    assert ["cef", "static"][..0] == [];
    assert PluginPathOf(["cef", "static"]) == "";
    assert PluginTargetDir(["cef", "static"]) + ["a.png"] == MainTargetDir + ["plugins", "a.png"];
    MainStaticPathAgrees(["plugins", "a.png"]);
    assert Join(["plugins", "a.png"], "/") == "plugins/a.png";
  }

  /**
   * A top-level plugin asset `x/b.png` lands on the same target as plugin
   * `x`'s own `b.png`, which is where `getStaticPath('x', 'b.png')` looks.
   */
  lemma TopLevelAssetShadowsPluginAsset()
    ensures PluginTargetDir(["cef", "static"]) + ["x", "b.png"] == PluginTargetDir(["x", "cef", "static"]) + ["b.png"]
    ensures PagePath(PluginTargetDir(["x", "cef", "static"]) + ["b.png"]) == GetStaticPath("x", "b.png")
  {
    assert ["cef", "static"][..0] == [];
    assert PluginPathOf(["cef", "static"]) == "";
    PluginTargetDirOf(["x", "cef", "static"]);
    assert ["x", "cef", "static"][..1] == ["x"];
    PluginStaticPathAgrees(["x", "cef", "static"], ["b.png"]);
  }

  /** The target directory of a plugin is `static/plugins` followed by the plugin's own directories. */
  lemma PluginTargetDirOf(dir: RelPath)
    requires |dir| >= 2 && CleanSegments(dir[..|dir| - 2])
    ensures PluginTargetDir(dir) == ["static", "plugins"] + dir[..|dir| - 2]
  {
    var dirs := dir[..|dir| - 2];
    if |dirs| == 0 {
      assert PluginPathOf(dir) == "";
    } else {
      SegmentsOfJoin(dirs);
      NonEmptyOfClean(dirs);
    }
  }

  /** Two different plugin directories never write the same relative asset to the same place. */
  lemma PluginAssetsSeparated(dir1: RelPath, dir2: RelPath, f: RelPath)
    requires |dir1| >= 2 && CleanSegments(dir1[..|dir1| - 2])
    requires |dir2| >= 2 && CleanSegments(dir2[..|dir2| - 2])
    requires dir1[..|dir1| - 2] != dir2[..|dir2| - 2]
    ensures PluginTargetDir(dir1) + f != PluginTargetDir(dir2) + f
  {
    PluginTargetDirOf(dir1);
    PluginTargetDirOf(dir2);
    var t1, t2 := PluginTargetDir(dir1) + f, PluginTargetDir(dir2) + f;
    assert t1[2..|t1| - |f|] == dir1[..|dir1| - 2];
    assert t2[2..|t2| - |f|] == dir2[..|dir2| - 2];
  }

  /** A main asset below `plugins/<p>/` lands on the asset of plugin `p` with the same relative path. */
  lemma MainAssetShadowsPluginAsset()
    ensures MainTargetDir + ["plugins", "x", "a.png"] == PluginTargetDir(["x", "cef", "static"]) + ["a.png"]
  {
    PluginTargetDirOf(["x", "cef", "static"]);
    assert ["x", "cef", "static"][..1] == ["x"];
  }
}
