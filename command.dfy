/**
 * The strings the builder puts on the compiler's command line and in its
 * environment: the `-ldflags` value, the GOOS/GOARCH/GOARM variables, the
 * xgo image and proxy, and the version of the optional startup program.
 */
module Command {
  import opened GoStrings
  import opened Params

  /** One `-X` linker assignment of a variable of package main. */
  datatype Assign = Assign(name: string, value: string)

  function Render(a: Assign): string {
    "-X main." + a.name + "=" + a.value
  }

  function RenderAll(assigns: seq<Assign>): seq<string> {
    seq(|assigns|, i requires 0 <= i < |assigns| => Render(assigns[i]))
  }

  /** The `-ldflags` value: the assignments, then a space and the flags, all separated by spaces. */
  function LdFlagsText(assigns: seq<Assign>, flags: seq<string>): string {
    Join(RenderAll(assigns), " ") + " " + Join(flags, " ")
  }

  /** The assignments genLdFlagsString makes, in order; PACKAGE only when there is a package. */
  function BuildAssignments(p: BuildParam): seq<Assign> {
    [Assign("BUILD_OS", p.goos), Assign("BUILD_ARCH", p.goarch), Assign("BUILD_TIME", p.buildTime),
     Assign("COMMIT", p.commitID), Assign("VERSION", p.config.ngingVersion), Assign("LABEL", p.config.ngingLabel)]
    + (if |p.config.ngingPackage| > 0 then [Assign("PACKAGE", p.config.ngingPackage)] else [])
  }

  /** The assignments genLdFlagsStringForStartup makes, in order. */
  function StartupAssignments(p: BuildParam, version: string): seq<Assign> {
    [Assign("BUILD_OS", p.goos), Assign("BUILD_ARCH", p.goarch), Assign("BUILD_TIME", p.buildTime),
     Assign("COMMIT", p.commitID), Assign("VERSION", version), Assign("MAIN_EXE", p.config.executor + p.extension)]
  }

  /** genLdFlagsString */
  function GenLdFlagsString(p: BuildParam): string {
    var s := Render(Assign("BUILD_OS", p.goos));
    var s := s + " " + Render(Assign("BUILD_ARCH", p.goarch));
    var s := s + " " + Render(Assign("BUILD_TIME", p.buildTime));
    var s := s + " " + Render(Assign("COMMIT", p.commitID));
    var s := s + " " + Render(Assign("VERSION", p.config.ngingVersion));
    var s := s + " " + Render(Assign("LABEL", p.config.ngingLabel));
    var s := if |p.config.ngingPackage| > 0 then s + " " + Render(Assign("PACKAGE", p.config.ngingPackage)) else s;
    s + " " + Join(p.minifyFlags + p.ldFlags, " ")
  }

  /** genLdFlagsStringForStartup */
  function GenLdFlagsStringForStartup(p: BuildParam, version: string): string {
    var s := Render(Assign("BUILD_OS", p.goos));
    var s := s + " " + Render(Assign("BUILD_ARCH", p.goarch));
    var s := s + " " + Render(Assign("BUILD_TIME", p.buildTime));
    var s := s + " " + Render(Assign("COMMIT", p.commitID));
    var s := s + " " + Render(Assign("VERSION", version));
    var s := s + " " + Render(Assign("MAIN_EXE", p.config.executor + p.extension));
    s + " " + Join(p.minifyFlags + p.ldFlags, " ")
  }

  /**
   * The linker flags are the `-X` assignments of BUILD_OS, BUILD_ARCH,
   * BUILD_TIME, COMMIT, VERSION and LABEL, in that order, then PACKAGE only
   * when a package is configured, then a space and the minify flags
   * followed by the linker flags.
   */
  lemma LdFlagsLayout(p: BuildParam)
    ensures GenLdFlagsString(p) == LdFlagsText(BuildAssignments(p), p.minifyFlags + p.ldFlags)
  {
    var r := RenderAll(BuildAssignments(p));
    JoinSix(r[..6], " ");
    if |p.config.ngingPackage| > 0 {
      JoinPrefix(r, 6, " ");
      assert r[..7] == r;
    } else {
      assert r[..6] == r;
    }
  }

  /**
   * With minification requested the flags after the assignments start with
   * `-s -w`, ahead of the linker flags; without it the text is the builder's
   * own, unchanged.
   */
  lemma MinifyLdFlags(p: BuildParam, minify: bool)
    ensures var q := Minified(p, minify);
      var flags := Join(q.minifyFlags + p.ldFlags, " ");
      GenLdFlagsString(q) == Join(RenderAll(BuildAssignments(p)), " ") + " " + flags
      && (minify ==> HasPrefix(flags, "-s -w"))
      && (!minify ==> GenLdFlagsString(q) == GenLdFlagsString(p))
  {
    var q := Minified(p, minify);
    LdFlagsLayout(q);
    assert BuildAssignments(q) == BuildAssignments(p);
    if minify {
      var ld := p.ldFlags;
      assert q.minifyFlags + ld == ["-s"] + (["-w"] + ld);
      JoinCons("-s", ["-w"] + ld, " ");
      if ld != [] {
        JoinCons("-w", ld, " ");
      }
    }
  }

  /**
   * The startup program's linker flags: BUILD_OS, BUILD_ARCH, BUILD_TIME,
   * COMMIT, the startup VERSION and MAIN_EXE (executor plus extension), then
   * a space and the flags.
   */
  lemma StartupLdFlagsLayout(p: BuildParam, version: string)
    ensures GenLdFlagsStringForStartup(p, version) == LdFlagsText(StartupAssignments(p, version), p.minifyFlags + p.ldFlags)
  {
    JoinSix(RenderAll(StartupAssignments(p, version)), " ");
  }

  /** genEnvVars */
  function GenEnvVars(goos: string, goarch: string): (env: seq<string>)
    ensures 2 <= |env| <= 3 && env[0] == "GOOS=" + goos
  {
    var parts := SplitN(goarch, '-', 2);
    if parts[0] == "arm" then
      ["GOOS=" + goos, "GOARCH=" + parts[0]] + (if |parts| == 2 then ["GOARM=" + parts[1]] else [])
    else ["GOOS=" + goos, "GOARCH=" + goarch]
  }

  /**
   * An architecture `arm-N` gives GOARCH=arm and GOARM=N; any other,
   * `arm` and `arm64` included, gives GOARCH set to it and nothing more.
   */
  lemma GenEnvVarsSpec(goos: string, goarch: string)
    ensures var env := GenEnvVars(goos, goarch);
      (|env| == 3 <==> HasPrefix(goarch, "arm-"))
      && (|env| == 3 ==> env[1] == "GOARCH=arm" && env[2] == "GOARM=" + goarch[4..])
      && (|env| == 2 ==> env[1] == "GOARCH=" + goarch)
  {
    var parts := SplitN(goarch, '-', 2);
    SplitNJoin(goarch, '-', 2);
    if HasPrefix(goarch, "arm-") {
      assert goarch == "arm" + ['-'] + goarch[4..];
      SplitNCons("arm", '-', goarch[4..], 2);
    } else if parts[0] == "arm" {
      assert goarch == "arm";
    }
  }

  /**
   * The environment a `go build` adds to the inherited one: the target's
   * variables, then CGO_ENABLED from the config.
   */
  function GoBuildEnv(p: BuildParam): (env: seq<string>)
    ensures |env| == |GenEnvVars(p.goos, p.goarch)| + 1
  {
    GenEnvVars(p.goos, p.goarch) + [if p.config.cgoEnabled then "CGO_ENABLED=1" else "CGO_ENABLED=0"]
  }

  /**
   * The target's variables come first and unchanged; exactly one entry, the
   * last, sets CGO_ENABLED, and it enables cgo exactly when the config does.
   */
  lemma GoBuildEnvSpec(p: BuildParam)
    ensures var env := GoBuildEnv(p);
      env[..|env| - 1] == GenEnvVars(p.goos, p.goarch)
      && (forall i :: 0 <= i < |env| ==> (HasPrefix(env[i], "CGO_ENABLED=") <==> i == |env| - 1))
      && (env[|env| - 1] == "CGO_ENABLED=1" <==> p.config.cgoEnabled)
  {
    var env := GoBuildEnv(p);
    GenEnvVarsSpec(p.goos, p.goarch);
    forall i | 0 <= i < |env| - 1
      ensures !HasPrefix(env[i], "CGO_ENABLED=")
    {
      assert env[i][0] == 'G';
    }
  }

  /** The image xgo runs in. */
  function XgoImage(goImage: string, goVersion: string): (image: string)
    ensures image != ""
  {
    if |goImage| == 0 then "admpub/xgo:" + goVersion
    else
      var pos := LastIndexOfChar(goImage, '/');
      var checkStr := if pos > -1 then goImage[pos..] else goImage;
      if ':' !in checkStr then goImage + ":" + goVersion else goImage
  }

  /** An image name carries a tag when some ':' has no '/' after it. */
  ghost predicate HasTag(image: string) {
    exists i :: 0 <= i < |image| && image[i] == ':' && forall j :: i < j < |image| ==> image[j] != '/'
  }

  lemma HasTagLast(image: string)
    ensures var pos := LastIndexOfChar(image, '/');
      HasTag(image) <==> ':' in (if pos > -1 then image[pos..] else image)
  {
    var pos := LastIndexOfChar(image, '/');
    LastIndexOfCharLast(image, '/');
    var checkStr := if pos > -1 then image[pos..] else image;
    if HasTag(image) {
      var i :| 0 <= i < |image| && image[i] == ':' && forall j :: i < j < |image| ==> image[j] != '/';
      assert pos < i;
      assert checkStr[i - (if pos > -1 then pos else 0)] == ':';
    }
    if ':' in checkStr {
      var k :| 0 <= k < |checkStr| && checkStr[k] == ':';
      var i := k + (if pos > -1 then pos else 0);
      assert image[i] == ':';
    }
  }

  /**
   * No configured image gives admpub/xgo tagged with the Go version; a
   * configured image keeps its own tag, and one without a tag (a registry
   * port before the last '/' does not count) gets the Go version.
   */
  lemma XgoImageSpec(goImage: string, goVersion: string)
    ensures XgoImage(goImage, goVersion)
      == if goImage == "" then "admpub/xgo:" + goVersion
         else if HasTag(goImage) then goImage
         else goImage + ":" + goVersion
  {
    HasTagLast(goImage);
  }

  /** A version without a '/' leaves a tagged image, so choosing the image twice changes nothing. */
  lemma XgoImageIdempotent(goImage: string, goVersion: string)
    requires '/' !in goVersion
    ensures HasTag(XgoImage(goImage, goVersion))
    ensures XgoImage(XgoImage(goImage, goVersion), goVersion) == XgoImage(goImage, goVersion)
  {
    var r := XgoImage(goImage, goVersion);
    XgoImageSpec(goImage, goVersion);
    if goImage == "" {
      var i := |"admpub/xgo"|;
      assert r[i] == ':';
      forall j | i < j < |r| ensures r[j] != '/' {
        assert r[j] == goVersion[j - i - 1];
      }
    } else if !HasTag(goImage) {
      var i := |goImage|;
      assert r[i] == ':';
      forall j | i < j < |r| ensures r[j] != '/' {
        assert r[j] == goVersion[j - i - 1];
      }
    }
    XgoImageSpec(r, goVersion);
  }

  /** The proxy xgo is given: the configured one, or goproxy.cn with direct fallback. */
  function GoProxyOrDefault(goProxy: string): (r: string)
    ensures r != ""
    ensures goProxy != "" ==> r == goProxy
  {
    if |goProxy| == 0 then "https://goproxy.cn,direct" else goProxy
  }

  /** The compiler a build runs: `go` only when so configured, xgo otherwise (an empty setting included). */
  function BuildTool(compiler: string): (tool: string)
    ensures tool == "go" || tool == "xgo"
  {
    if compiler == "go" then "go" else "xgo"
  }

  /**
   * An empty compiler setting builds every target with xgo and never falls
   * back to go, not even for a system or architecture xgo does not support.
   */
  lemma EmptyCompilerBuildsWithXgo(p: BuildParam, target: string, singleFileMode: bool, distPath: string)
    requires p.config.compiler == "" && '/' in target
    ensures Derive(p, target, singleFileMode, distPath).Some?
    ensures var r := Derive(p, target, singleFileMode, distPath).value;
      BuildTool(r.config.compiler) == "xgo" && "sqlitego" !in r.pureGoTags
  {
    DeriveSplits(p, target, singleFileMode, distPath);
    OnlyXgoFallsBack(p, target, singleFileMode, distPath);
  }

  /** The directory and version of the startup program, from `path@vversion`. */
  datatype Startup = Startup(dir: string, version: string)

  function StartupOf(startupPackage: string): (r: Startup)
    ensures r.version != ""
  {
    var parts := SplitN(startupPackage, '@', 2);
    var version := if |parts| == 2 then TrimPrefix(parts[1], "v") else "";
    Startup(parts[0], if |version| == 0 then "0.0.1" else version)
  }

  /** Whatever follows the first '@' is the version, less one leading 'v'; nothing left means 0.0.1. */
  lemma StartupOfAt(path: string, rest: string)
    requires '@' !in path
    ensures var v := TrimPrefix(rest, "v");
      StartupOf(path + "@" + rest) == Startup(path, if v == "" then "0.0.1" else v)
  {
    SplitNCons(path, '@', rest, 2);
    assert path + "@" + rest == path + ['@'] + rest;
  }

  /** A package without '@' is its own path, at version 0.0.1. */
  lemma StartupOfNoAt(path: string)
    requires '@' !in path
    ensures StartupOf(path) == Startup(path, "0.0.1")
  {
    IndexOfCharFirst(path, '@');
  }

  /** `path@vX` gives version X, and `path@v` version 0.0.1. */
  lemma StartupOfAtV(path: string, version: string)
    requires '@' !in path
    ensures StartupOf(path + "@v" + version) == Startup(path, if version == "" then "0.0.1" else version)
  {
    StartupOfAt(path, "v" + version);
    assert path + "@v" + version == path + "@" + ("v" + version);
    assert TrimPrefix("v" + version, "v") == version;
  }

  /**
   * `path@vX` and `path@X` give `path` and `X` (one leading 'v' dropped);
   * a package without '@', or with nothing but an optional 'v' after it,
   * gives its path and version 0.0.1.
   */
  lemma StartupOfSpec(path: string, version: string)
    requires '@' !in path
    ensures StartupOf(path) == Startup(path, "0.0.1")
    ensures StartupOf(path + "@v" + version) == Startup(path, if version == "" then "0.0.1" else version)
    ensures version != "" && version[0] != 'v' ==> StartupOf(path + "@" + version) == Startup(path, version)
    ensures StartupOf(path + "@") == Startup(path, "0.0.1")
  {
    StartupOfNoAt(path);
    StartupOfAtV(path, version);
    if version != "" && version[0] != 'v' {
      StartupOfAt(path, version);
      assert !("v" <= version);
    }
    StartupOfAt(path, "");
    assert path + "@" + "" == path + "@";
  }
}
