/**
 * The build parameters: the configuration read from the config file, the
 * builder-wide parameters it is merged into, and the per-target copy the
 * builder derives for each `os/arch` it builds.
 */
module Params {
  import opened Wrappers
  import opened GoStrings
  import opened Seqs
  import Comment

  /** The fields of the config file. */
  datatype Config = Config(
    goVersion: string,
    goImage: string,
    goProxy: string,
    executor: string,
    ngingVersion: string,
    ngingLabel: string,
    ngingPackage: string,
    startupPackage: string,
    project: string,
    vendorMiscDirs: map<string, seq<string>>,
    buildTags: seq<string>,
    copyFiles: seq<string>,
    makeDirs: seq<string>,
    compiler: string,
    cgoEnabled: bool,
    targets: map<string, string>)

  /** A config with every field at its zero value. */
  const EmptyConfig := Config("", "", "", "", "", "", "", "", "", map[], [], [], [], "", false, map[])

  /** The parameters of one build: the config plus what the builder fills in. */
  datatype BuildParam = BuildParam(
    config: Config,
    target: string,
    releaseDir: string,
    extension: string,
    pureGoTags: seq<string>,
    buildTime: string,
    commitID: string,
    minifyFlags: seq<string>,
    ldFlags: seq<string>,
    projectPath: string,
    workDir: string,
    goos: string,
    goarch: string)

  /** The builder-wide parameters before the config file is applied. */
  const ZeroParam := BuildParam(EmptyConfig, "", "", "", [], "", "", [], [], "", "", "", "")

  /** A field the config file sets only when it gives a non-empty value. */
  function Prefer(fromFile: string, current: string): (r: string)
    ensures fromFile != "" ==> r == fromFile
    ensures fromFile == "" ==> r == current
  {
    if |fromFile| > 0 then fromFile else current
  }

  /**
   * The configuration after the file's values are applied: the Go version,
   * executor, version, label, project and per-platform directories are
   * replaced only by non-empty values, every other field is replaced
   * outright, and the target registry (kept outside the configuration) is
   * left alone.
   */
  function Merged(current: Config, file: Config): Config {
    current.(
      goVersion := Prefer(file.goVersion, current.goVersion),
      executor := Prefer(file.executor, current.executor),
      ngingVersion := Prefer(file.ngingVersion, current.ngingVersion),
      ngingLabel := Prefer(file.ngingLabel, current.ngingLabel),
      ngingPackage := file.ngingPackage,
      startupPackage := file.startupPackage,
      project := Prefer(file.project, current.project),
      vendorMiscDirs := if |file.vendorMiscDirs| > 0 then file.vendorMiscDirs else current.vendorMiscDirs,
      goImage := file.goImage,
      buildTags := file.buildTags,
      copyFiles := file.copyFiles,
      makeDirs := file.makeDirs,
      compiler := file.compiler,
      cgoEnabled := file.cgoEnabled,
      goProxy := file.goProxy)
  }

  /** Applying the same file twice is the same as applying it once. */
  lemma MergedIdempotent(current: Config, file: Config)
    ensures Merged(Merged(current, file), file) == Merged(current, file)
  {
  }

  /**
   * Applying an empty file keeps the fields that need a non-empty value and
   * clears the ones it copies outright.
   */
  lemma MergedEmptyFile(current: Config)
    ensures var m := Merged(current, EmptyConfig);
      m.goVersion == current.goVersion && m.executor == current.executor
      && m.ngingVersion == current.ngingVersion && m.ngingLabel == current.ngingLabel
      && m.project == current.project && m.vendorMiscDirs == current.vendorMiscDirs
      && m.ngingPackage == "" && m.startupPackage == "" && m.goImage == "" && m.goProxy == ""
      && m.buildTags == [] && m.copyFiles == [] && m.makeDirs == []
      && m.compiler == "" && !m.cgoEnabled
  {
  }

  /**
   * The merged value of a field that needs a non-empty value is the file's
   * when it gives one, and otherwise the current one.
   */
  lemma MergedPrefersFile(current: Config, file: Config)
    ensures var m := Merged(current, file);
      (file.goVersion != "" ==> m.goVersion == file.goVersion)
      && (file.goVersion == "" ==> m.goVersion == current.goVersion)
      && (file.executor != "" ==> m.executor == file.executor)
      && (file.executor == "" ==> m.executor == current.executor)
      && (file.ngingVersion != "" ==> m.ngingVersion == file.ngingVersion)
      && (file.ngingVersion == "" ==> m.ngingVersion == current.ngingVersion)
      && (file.ngingLabel != "" ==> m.ngingLabel == file.ngingLabel)
      && (file.ngingLabel == "" ==> m.ngingLabel == current.ngingLabel)
      && (file.project != "" ==> m.project == file.project)
      && (file.project == "" ==> m.project == current.project)
      && (|file.vendorMiscDirs| > 0 ==> m.vendorMiscDirs == file.vendorMiscDirs)
      && (|file.vendorMiscDirs| == 0 ==> m.vendorMiscDirs == current.vendorMiscDirs)
  {
  }

  /**
   * Whatever the file holds, the package paths, image, proxy, build tags,
   * files to copy, directories to make, compiler and cgo setting are the
   * file's own, and the target registry inside the configuration is kept.
   */
  lemma MergedCopiesFile(current: Config, file: Config)
    ensures var m := Merged(current, file);
      m.ngingPackage == file.ngingPackage && m.startupPackage == file.startupPackage
      && m.goImage == file.goImage && m.goProxy == file.goProxy
      && m.buildTags == file.buildTags && m.copyFiles == file.copyFiles && m.makeDirs == file.makeDirs
      && m.compiler == file.compiler && m.cgoEnabled == file.cgoEnabled
      && m.targets == current.targets
  {
  }

  /** The global parameters `p` and the global target registry. */
  class Builder {
    var p: BuildParam
    var targetNames: map<string, string>

    constructor(names: map<string, string>)
      ensures p == ZeroParam && targetNames == names
    {
      p := ZeroParam;
      targetNames := names;
    }

    /**
     * Config.apply: merges the file's values into `p` and adds the file's
     * targets to the registry, overwriting entries of the same name.
     */
    method Apply(a: Config)
      modifies this
      ensures p == old(p).(config := Merged(old(p.config), a))
      ensures targetNames == old(targetNames) + a.targets
      ensures forall k :: k in old(targetNames) ==> k in targetNames
    {
      var c := p.config;
      c := c.(goVersion := Prefer(a.goVersion, c.goVersion));
      c := c.(executor := Prefer(a.executor, c.executor));
      c := c.(ngingVersion := Prefer(a.ngingVersion, c.ngingVersion));
      c := c.(ngingLabel := Prefer(a.ngingLabel, c.ngingLabel));
      c := c.(ngingPackage := a.ngingPackage);
      c := c.(startupPackage := a.startupPackage);
      c := c.(project := Prefer(a.project, c.project));
      if |a.vendorMiscDirs| > 0 {
        c := c.(vendorMiscDirs := a.vendorMiscDirs);
      }
      c := c.(goImage := a.goImage);
      c := c.(buildTags := a.buildTags);
      c := c.(copyFiles := a.copyFiles);
      c := c.(makeDirs := a.makeDirs);
      c := c.(compiler := a.compiler);
      c := c.(cgoEnabled := a.cgoEnabled);
      c := c.(goProxy := a.goProxy);
      p := p.(config := c);
      if |a.targets| > 0 {
        AddTargets(a.targets);
      } else {
        assert a.targets == map[];
        assert targetNames + a.targets == targetNames;
      }
    }

    /** The loop over the file's targets: each is written into the registry. */
    method AddTargets(targets: map<string, string>)
      modifies this
      ensures p == old(p)
      ensures targetNames == old(targetNames) + targets
    {
      var pending := targets.Keys;
      while pending != {}
        invariant pending <= targets.Keys
        invariant forall k :: k in targetNames <==> k in old(targetNames) || (k in targets && k !in pending)
        invariant forall k :: k in targetNames ==>
          targetNames[k] == if k in targets && k !in pending then targets[k] else old(targetNames)[k]
        invariant p == old(p)
        decreases pending
      {
        var k :| k in pending;
        targetNames := targetNames[k := targets[k]];
        pending := pending - {k};
      }
    }
  }

  /**
   * The working directory: the project's source path without a trailing
   * slash and without the project's import path at its end.
   */
  function WorkDirOf(projectPath: string, project: string): (r: string)
    ensures |r| <= |projectPath|
  {
    TrimSuffix(TrimSuffix(projectPath, "/"), project)
  }

  /** The source path of a project under `root`, with or without a trailing slash, gives back `root`. */
  lemma WorkDirOfRoot(root: string, project: string)
    requires |project| > 0 && project[|project| - 1] != '/'
    ensures WorkDirOf(root + project, project) == root
    ensures WorkDirOf(root + project + "/", project) == root
  {
    var s := root + project;
    assert !HasSuffix(s, "/") by {
      assert s[|s| - 1] == project[|project| - 1];
    }
    assert HasSuffix(s, project) by {
      assert s[|s| - |project|..] == project;
    }
    assert (s + "/")[..|s|] == s;
  }

  /**
   * isSingleFile, as written: one binary and no archive only when nothing is
   * to be copied or created and the per-platform directory map is empty.
   * Once the map has a key the flag is already false, so the loop over its
   * lists can only return false too.
   */
  predicate IsSingleFile(c: Config) {
    if !(|c.copyFiles| == 0 && |c.makeDirs| == 0) then false
    else |c.vendorMiscDirs| == 0
  }

  /**
   * Single-file mode holds exactly when there are no files to copy, no
   * directories to make and no platform key at all; it implies the
   * intended condition below.
   */
  lemma SingleFileSpec(c: Config)
    ensures IsSingleFile(c) <==> c.copyFiles == [] && c.makeDirs == [] && c.vendorMiscDirs == map[]
    ensures IsSingleFile(c) ==> IntendedSingleFile(c)
  {
    if |c.vendorMiscDirs| == 0 {
      assert c.vendorMiscDirs == map[];
    }
  }

  /**
   * The condition the loop over the directory lists is written to test:
   * nothing to copy or create and no platform with directories of its own.
   */
  predicate IntendedSingleFile(c: Config) {
    |c.copyFiles| == 0 && |c.makeDirs| == 0
    && forall os :: os in c.vendorMiscDirs ==> |c.vendorMiscDirs[os]| == 0
  }

  /**
   * The intended mode holds exactly when there are no files to copy, no
   * directories to make and every platform's list is empty; then every
   * generated comment covers the built-in directories only.
   */
  lemma IntendedSingleFileSpec(c: Config)
    ensures IntendedSingleFile(c)
      <==> c.copyFiles == [] && c.makeDirs == [] && forall os :: os in c.vendorMiscDirs ==> c.vendorMiscDirs[os] == []
    ensures IntendedSingleFile(c) ==> forall os :: os in c.vendorMiscDirs ==> Comment.DirsFor(c.vendorMiscDirs, os) == []
  {
  }

  /**
   * A config whose only platform key lists no directories, as the default
   * config's `!linux` entry does, is built in multi-file mode although it
   * has nothing to add to a single binary.
   */
  lemma EmptyPlatformListNotSingle()
    ensures var c := EmptyConfig.(vendorMiscDirs := map["!linux" := []]);
      !IsSingleFile(c) && IntendedSingleFile(c)
  {
    var c := EmptyConfig.(vendorMiscDirs := map["!linux" := []]);
    assert "!linux" in c.vendorMiscDirs;
  }

  /** The linker flags main sets before building when minification is requested: no symbol table, no DWARF. */
  function Minified(p: BuildParam, minify: bool): (r: BuildParam)
    ensures r.minifyFlags == (if minify then ["-s", "-w"] else p.minifyFlags)
    ensures r.(minifyFlags := p.minifyFlags) == p
  {
    if minify then p.(minifyFlags := ["-s", "-w"]) else p
  }

  /** The platforms and architectures xgo can build. */
  const XgoSupportedPlatforms := ["darwin", "linux", "windows"]
  const XgoSupportedArchitectures := ["386", "amd64", "arm-5", "arm-6", "arm-7", "arm64", "mips", "mipsle", "mips64", "mips64le"]

  /** The xgo-to-go fallback fires only for the compiler named `xgo`. */
  predicate FallsBack(compiler: string, os: string, arch: string) {
    compiler == "xgo" && (os !in XgoSupportedPlatforms || arch !in XgoSupportedArchitectures)
  }

  /** The per-target copy of the parameters, once `target` has split into `os/arch`. */
  function Derive(p: BuildParam, target: string, singleFileMode: bool, distPath: string): (r: Option<BuildParam>) {
    var parts := SplitN(target, '/', 2);
    if |parts| != 2 then None
    else
      var os, arch := parts[0], parts[1];
      var fallback := FallsBack(p.config.compiler, os, arch);
      Some(p.(
        target := target,
        releaseDir := if singleFileMode then distPath else distPath + "/" + p.config.executor + "_" + os + "_" + arch,
        goos := os,
        goarch := arch,
        config := p.config.(compiler := if fallback then "go" else p.config.compiler),
        pureGoTags := ["osusergo"]
          + (if fallback && "sqlite" in p.config.buildTags then ["sqlitego"] else [])
          + (if os != "windows" then ["netgo"] else []),
        ldFlags := if os != "darwin" then ["-extldflags", "'-static'"] else p.ldFlags,
        extension := if os == "windows" then ".exe" else p.extension))
  }

  /**
   * The body of the loop over the selected targets up to the build: a copy
   * of `p` is updated field by field. A target without a '/' is skipped.
   */
  method DeriveParam(p: BuildParam, target: string, singleFileMode: bool, distPath: string)
    returns (pc: Option<BuildParam>)
    ensures pc == Derive(p, target, singleFileMode, distPath)
  {
    var parts := SplitN(target, '/', 2);
    if |parts| != 2 {
      return None;
    }
    var osName := parts[0];
    var archName := parts[1];
    var pureGoTags := ["osusergo"];
    var releaseDir := distPath;
    if !singleFileMode {
      releaseDir := distPath + "/" + p.config.executor + "_" + osName + "_" + archName;
    }
    var compiler := p.config.compiler;
    if FallsBack(compiler, osName, archName) {
      compiler := "go";
      if "sqlite" in p.config.buildTags {
        pureGoTags := pureGoTags + ["sqlitego"];
      }
    }
    var ldFlags := p.ldFlags;
    if osName != "darwin" {
      ldFlags := ["-extldflags", "'-static'"];
    }
    var extension := p.extension;
    if osName != "windows" {
      pureGoTags := pureGoTags + ["netgo"];
    } else {
      extension := ".exe";
    }
    ghost var r := Derive(p, target, singleFileMode, distPath).value;
    assert r.pureGoTags == pureGoTags;
    assert r.config.compiler == compiler;
    assert r.releaseDir == releaseDir;
    assert r.ldFlags == ldFlags;
    assert r.extension == extension;
    return Some(p.(target := target, releaseDir := releaseDir, goos := osName, goarch := archName,
                   config := p.config.(compiler := compiler), pureGoTags := pureGoTags,
                   ldFlags := ldFlags, extension := extension));
  }

  /** A target splits exactly when it holds a '/', into the text before the first one and the rest. */
  lemma DeriveSplits(p: BuildParam, target: string, singleFileMode: bool, distPath: string)
    ensures var r := Derive(p, target, singleFileMode, distPath);
      (r.Some? <==> '/' in target)
      && (r.Some? ==> r.value.goos + "/" + r.value.goarch == target && '/' !in r.value.goos)
  {
    var parts := SplitN(target, '/', 2);
    SplitNJoin(target, '/', 2);
    SplitNParts(target, '/', 2);
    if |parts| == 2 {
      JoinCons(parts[0], parts[1..], "/");
      assert target == parts[0] + "/" + parts[1];
      assert target[|parts[0]|] == '/';
    } else {
      assert target == parts[0];
    }
  }

  /**
   * The derived tags: `osusergo`, then `sqlitego` exactly when the
   * fallback fires and `sqlite` is a build tag, then `netgo` exactly when
   * the system is not Windows; the `.exe` extension on Windows whatever the
   * base, the base extension elsewhere; static linking everywhere but Darwin, and
   * the compiler switched to `go` exactly when the fallback fires; the
   * release directory is the distribution directory itself in single-file
   * mode and `<executor>_<os>_<arch>` under it otherwise; every other field
   * is the builder's own.
   */
  lemma DeriveSpec(p: BuildParam, target: string, singleFileMode: bool, distPath: string)
    requires '/' in target
    ensures Derive(p, target, singleFileMode, distPath).Some?
    ensures var r := Derive(p, target, singleFileMode, distPath).value;
      var fallback := FallsBack(p.config.compiler, r.goos, r.goarch);
      r.pureGoTags == ["osusergo"]
        + (if fallback && "sqlite" in p.config.buildTags then ["sqlitego"] else [])
        + (if r.goos != "windows" then ["netgo"] else [])
      && ("netgo" in r.pureGoTags <==> r.goos != "windows")
      && ("sqlitego" in r.pureGoTags <==> fallback && "sqlite" in p.config.buildTags)
      && r.extension == (if r.goos == "windows" then ".exe" else p.extension)
      && (r.goos != "darwin" ==> r.ldFlags == ["-extldflags", "'-static'"])
      && (r.goos == "darwin" ==> r.ldFlags == p.ldFlags)
      && r.config.compiler == (if fallback then "go" else p.config.compiler)
      && r.config == p.config.(compiler := r.config.compiler)
      && r.target == target
      && r.releaseDir == (if singleFileMode then distPath
                          else distPath + "/" + p.config.executor + "_" + r.goos + "_" + r.goarch)
      && r.minifyFlags == p.minifyFlags && r.buildTime == p.buildTime && r.commitID == p.commitID
      && r.projectPath == p.projectPath && r.workDir == p.workDir
  {
    DeriveSplits(p, target, singleFileMode, distPath);
  }

  /** Only the compiler named `xgo` ever falls back: an empty compiler stays empty. */
  lemma OnlyXgoFallsBack(p: BuildParam, target: string, singleFileMode: bool, distPath: string)
    requires p.config.compiler != "xgo"
    ensures var r := Derive(p, target, singleFileMode, distPath);
      r.Some? ==> r.value.config.compiler == p.config.compiler && "sqlitego" !in r.value.pureGoTags
  {
  }

  /** The parameters of every target that splits, in the order of the targets. */
  function Plans(p: BuildParam, targets: seq<string>, singleFileMode: bool, distPath: string): seq<BuildParam> {
    Collect(t => Derive(p, t, singleFileMode, distPath), targets)
  }

  /** The loop over the selected targets, gathering the parameters each build runs with. */
  method PlanBuilds(p: BuildParam, targets: seq<string>, singleFileMode: bool, distPath: string)
    returns (plans: seq<BuildParam>)
    ensures plans == Plans(p, targets, singleFileMode, distPath)
  {
    plans := [];
    for i := 0 to |targets|
      invariant plans == Plans(p, targets[..i], singleFileMode, distPath)
    {
      CollectSnoc(t => Derive(p, t, singleFileMode, distPath), targets[..i], targets[i]);
      assert targets[..i + 1] == targets[..i] + [targets[i]];
      var pCopy := DeriveParam(p, targets[i], singleFileMode, distPath);
      if pCopy.Some? {
        plans := plans + [pCopy.value];
      }
    }
    assert targets[..|targets|] == targets;
  }

  /** Every planned build is for one of the targets that holds a '/', and every such target is planned. */
  lemma PlansSpec(p: BuildParam, targets: seq<string>, singleFileMode: bool, distPath: string)
    ensures var plans := Plans(p, targets, singleFileMode, distPath);
      (forall b :: b in plans ==> b.target in targets && '/' in b.target)
      && (forall t :: t in targets && '/' in t ==> exists b :: b in plans && b.target == t)
  {
    var f := t => Derive(p, t, singleFileMode, distPath);
    var plans := Plans(p, targets, singleFileMode, distPath);
    CollectElements(f, targets);
    forall b | b in plans ensures b.target in targets && '/' in b.target {
      var i :| 0 <= i < |targets| && f(targets[i]) == Some(b);
      DeriveSpec(p, targets[i], singleFileMode, distPath);
      DeriveSplits(p, targets[i], singleFileMode, distPath);
    }
    forall t | t in targets && '/' in t ensures exists b :: b in plans && b.target == t {
      var i :| 0 <= i < |targets| && targets[i] == t;
      DeriveSplits(p, t, singleFileMode, distPath);
      DeriveSpec(p, t, singleFileMode, distPath);
      assert f(targets[i]) == Some(f(t).value);
    }
  }
}
