/** What the loader derives from a module's `resourcePath`, the loader's own
    `__dirname` and the inherited `process.env` before it starts the Go
    compiler, and the name under which it emits the compiled artifact. */
module Derivations {
  import opened Wrappers
  import opened JsString
  import opened NodePath

  // ----- working directory -----

  /** `resourcePath.substr(0, resourcePath.lastIndexOf("/"))`: the compiler's
      working directory. */
  function ResourceDirectory(resourcePath: string): (dir: string)
    ensures '/' !in resourcePath ==> dir == ""
  {
    Substr(resourcePath, 0, LastIndexOf(resourcePath, '/'))
  }

  /** A path with a separator is its directory, "/", and its last component. */
  lemma ResourceDirectorySplit(resourcePath: string)
    requires '/' in resourcePath
    ensures resourcePath == ResourceDirectory(resourcePath) + "/" + LastComponent(resourcePath)
  {
    var last := LastIndexOf(resourcePath, '/');
    LastComponentAfterLastSlash(resourcePath);
    assert resourcePath == resourcePath[..last] + "/" + resourcePath[last + 1..];
  }

  /** Cutting off a last component that holds no "/" gives back exactly the
      directory it was appended to. */
  lemma ResourceDirectoryOf(dir: string, name: string)
    requires '/' !in name
    ensures ResourceDirectory(dir + "/" + name) == dir
  {
    LastIndexOfSplit(dir, '/', name);
    assert (dir + "/" + name)[..|dir|] == dir;
  }

  // ----- compiler output and invocation -----

  /** `${resourcePath}.wasm`: where the compiler is told to write. */
  function OutFile(resourcePath: string): (out: string)
    ensures |out| == |resourcePath| + 5
  {
    resourcePath + ".wasm"
  }

  /** The output file is the module's path with ".wasm" appended. */
  lemma OutFileShape(resourcePath: string)
    ensures var out := OutFile(resourcePath);
      out[..|resourcePath|] == resourcePath && EndsWith(out, ".wasm")
  {
    var out := OutFile(resourcePath);
    assert out[|out| - 5..] == ".wasm";
  }

  /** Distinct modules get distinct temporary output files, and the output never
      overwrites a module's own source. */
  lemma OutFileExclusive(p: string, q: string)
    ensures OutFile(p) != p
    ensures OutFile(p) == OutFile(q) ==> p == q
  {
    if OutFile(p) == OutFile(q) {
      OutFileShape(p);
      OutFileShape(q);
    }
  }

  /** `getGoBin(root)`: `${root}/bin/go`. An undefined root prints as
      "undefined" in a template literal. */
  function GoBinary(root: Option<string>): (bin: string)
    ensures root.Some? ==> |bin| == |root.value| + 7
    ensures root.None? ==> bin == "undefined/bin/go"
  {
    var text := match root
      case Some(r) => r
      case None => "undefined";
    text + "/bin/go"
  }

  /** The compiler is the `bin/go` under the toolchain root. */
  lemma GoBinaryShape(root: Option<string>)
    ensures var bin := GoBinary(root);
      && EndsWith(bin, "/bin/go")
      && (root.Some? ==> bin[..|root.value|] == root.value)
  {
    var bin := GoBinary(root);
    assert bin[|bin| - 7..] == "/bin/go";
  }

  /** Different toolchain roots give different compiler binaries. */
  lemma GoBinaryInjective(r1: string, r2: string)
    ensures GoBinary(Some(r1)) == GoBinary(Some(r2)) ==> r1 == r2
  {
    if GoBinary(Some(r1)) == GoBinary(Some(r2)) {
      GoBinaryShape(Some(r1));
      GoBinaryShape(Some(r2));
    }
  }

  /** `["build", "-o", outFile, resourcePath]`: `go build` of the resource into
      the output file. */
  function BuildArgs(outFile: string, resourcePath: string): (args: seq<string>)
    ensures BuildTarget(args) == Some((outFile, resourcePath))
  {
    ["build", "-o", outFile, resourcePath]
  }

  /** How `go build` reads an argument list of this shape: the output file
      given to `-o`, and the package to build. */
  function BuildTarget(args: seq<string>): Option<(string, string)>
  {
    if |args| == 4 && args[0] == "build" && args[1] == "-o" then Some((args[2], args[3])) else None
  }

  /** The argument list asks the compiler to build exactly the module into
      exactly the output file, and it is the only list that does so. */
  lemma BuildArgsTarget(outFile: string, resourcePath: string, args: seq<string>)
    ensures BuildTarget(BuildArgs(outFile, resourcePath)) == Some((outFile, resourcePath))
    ensures BuildTarget(args) == Some((outFile, resourcePath)) ==> args == BuildArgs(outFile, resourcePath)
  {
  }

  // ----- environment -----

  /** `opts.env`: fixed cross-compilation settings and two variables copied
      from the inherited environment, which may be undefined. */
  datatype Env = Env(
    go111Module: string,
    goPath: Option<string>,
    goRoot: Option<string>,
    goCache: string,
    goos: string,
    goarch: string)

  function BuildEnvironment(processEnv: map<string, string>, dirname: string): (env: Env)
    ensures env.goPath.Some? <==> "GOPATH" in processEnv
    ensures env.goRoot.Some? <==> "GOROOT" in processEnv
    ensures env.goPath.Some? ==> env.goPath.value == processEnv["GOPATH"]
    ensures env.goRoot.Some? ==> env.goRoot.value == processEnv["GOROOT"]
  {
    Env(
      go111Module := "on",
      goPath := Lookup(processEnv, "GOPATH"),
      goRoot := Lookup(processEnv, "GOROOT"),
      goCache := Join([dirname, "./.gocache"]),
      goos := "js",
      goarch := "wasm")
  }

  /** The variables the child process is given from `opts.env`: the entries
      whose value is not undefined (as current Node releases build a child's
      environment; Node's own additions, such as a forwarded
      `NODE_V8_COVERAGE`, are not modelled). */
  function ChildEnvironment(env: Env): (m: map<string, string>)
    ensures m.Keys == {"GO111MODULE", "GOCACHE", "GOOS", "GOARCH"}
                      + (if env.goPath.Some? then {"GOPATH"} else {})
                      + (if env.goRoot.Some? then {"GOROOT"} else {})
    ensures m["GO111MODULE"] == env.go111Module && m["GOCACHE"] == env.goCache
    ensures m["GOOS"] == env.goos && m["GOARCH"] == env.goarch
    ensures env.goPath.Some? ==> m["GOPATH"] == env.goPath.value
    ensures env.goRoot.Some? ==> m["GOROOT"] == env.goRoot.value
  {
    var fixed := map["GO111MODULE" := env.go111Module, "GOCACHE" := env.goCache,
                     "GOOS" := env.goos, "GOARCH" := env.goarch];
    var withPath := if env.goPath.Some? then fixed["GOPATH" := env.goPath.value] else fixed;
    if env.goRoot.Some? then withPath["GOROOT" := env.goRoot.value] else withPath
  }

  /** The compiler always targets js/wasm in module mode with the loader's own
      cache, whatever the inherited environment holds; GOPATH and GOROOT pass
      through unchanged when defined; no other inherited variable reaches the
      child through `opts.env`. */
  lemma ChildEnvironmentIsolated(processEnv: map<string, string>, dirname: string)
    ensures var m := ChildEnvironment(BuildEnvironment(processEnv, dirname));
      && m.Keys == {"GO111MODULE", "GOCACHE", "GOOS", "GOARCH"} + (processEnv.Keys * {"GOPATH", "GOROOT"})
      && m["GO111MODULE"] == "on" && m["GOOS"] == "js" && m["GOARCH"] == "wasm"
      && m["GOCACHE"] == Join([dirname, "./.gocache"])
      && ("GOPATH" in processEnv ==> m["GOPATH"] == processEnv["GOPATH"])
      && ("GOROOT" in processEnv ==> m["GOROOT"] == processEnv["GOROOT"])
  {
    var m := ChildEnvironment(BuildEnvironment(processEnv, dirname));
    var expected := {"GO111MODULE", "GOCACHE", "GOOS", "GOARCH"} + (processEnv.Keys * {"GOPATH", "GOROOT"});
    forall k ensures k in m.Keys <==> k in expected {
    }
  }

  /** For the loader's canonical installation directory, the build cache is its
      `.gocache` subdirectory. */
  lemma GoCacheInInstallDir(processEnv: map<string, string>, dirname: string)
    requires Canonical(dirname)
    ensures BuildEnvironment(processEnv, dirname).goCache ==
            (if dirname == "/" then "" else dirname) + "/.gocache"
  {
    assert Plain(".gocache") && '/' !in ".gocache";
    JoinChild(dirname, ".gocache");
    assert "./" + ".gocache" == "./.gocache";
  }

  /** The arguments of the compiler's `execFile`. */
  datatype Command = Command(file: string, args: seq<string>, env: Env, cwd: string)

  function CompilerCommand(resourcePath: string, dirname: string, processEnv: map<string, string>): Command
  {
    var env := BuildEnvironment(processEnv, dirname);
    Command(GoBinary(env.goRoot), BuildArgs(OutFile(resourcePath), resourcePath), env, ResourceDirectory(resourcePath))
  }

  /** The compiler run is `$GOROOT/bin/go build -o <resourcePath>.wasm
      <resourcePath>` in the module's directory, with the isolated environment. */
  lemma CompilerInvocation(resourcePath: string, dirname: string, processEnv: map<string, string>)
    ensures var c := CompilerCommand(resourcePath, dirname, processEnv);
      && ("GOROOT" in processEnv ==> c.file == processEnv["GOROOT"] + "/bin/go")
      && ("GOROOT" !in processEnv ==> c.file == "undefined/bin/go")
      && BuildTarget(c.args) == Some((resourcePath + ".wasm", resourcePath))
      && c.env == BuildEnvironment(processEnv, dirname)
      && ('/' in resourcePath ==> resourcePath == c.cwd + "/" + LastComponent(resourcePath))
  {
    BuildArgsTarget(OutFile(resourcePath), resourcePath, []);
    if '/' in resourcePath {
      ResourceDirectorySplit(resourcePath);
    }
  }

  // ----- emitted artifact -----

  /** `basename(resourcePath, ".go") + ".wasm"`: the name the artifact is
      emitted under. */
  function EmittedFilename(resourcePath: string): (name: string)
    requires NamesFile(resourcePath)
    ensures '/' !in name
  {
    WasmName(Basename(resourcePath, ".go"))
  }

  /** `stem + ".wasm"`, for a stem without separators. */
  function WasmName(stem: string): (name: string)
    requires '/' !in stem
    ensures '/' !in name
  {
    AppendSuffix(stem, ".wasm");
    stem + ".wasm"
  }

  /** Every emitted artifact is a ".wasm" file. */
  lemma EmittedIsWasm(resourcePath: string)
    requires NamesFile(resourcePath)
    ensures EndsWith(EmittedFilename(resourcePath), ".wasm")
  {
    var stem := Basename(resourcePath, ".go");
    assert EmittedFilename(resourcePath) == stem + ".wasm";
    AppendSuffix(stem, ".wasm");
  }

  /** A Go source `<dir>/<stem>.go` is emitted as `<stem>.wasm`. */
  lemma EmittedFromGoSource(dir: string, stem: string)
    requires '/' !in stem && stem != ""
    ensures NamesFile(dir + "/" + stem + ".go")
    ensures EmittedFilename(dir + "/" + stem + ".go") == stem + ".wasm"
  {
    var p := dir + "/" + stem + ".go";
    var base := stem + ".go";
    assert p == dir + "/" + base;
    LastIndexOfSplit(dir, '/', base);
    LastComponentAfterLastSlash(p);
    assert LastComponent(p) == base;
    assert EndsWith(base, ".go");
    assert |p| > 3;
    BasenameCases(p, ".go");
    assert Basename(p, ".go") == stem;
  }

  /** A last component that does not end in ".go" keeps its whole name, and so
      does one that is exactly ".go"; a bare ".go" path is emitted as ".wasm". */
  lemma EmittedKeepsOtherNames(p: string)
    requires NamesFile(p) && p != ".go"
    requires !EndsWith(LastComponent(p), ".go") || LastComponent(p) == ".go"
    ensures EmittedFilename(p) == LastComponent(p) + ".wasm"
  {
    BasenameCases(p, ".go");
  }
}
