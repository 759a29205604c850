# webpack-golang-wasm-async-loader, modelled in Dafny

The loader is a webpack loader for Go modules. For each `.go` resource it:

1. runs `$GOROOT/bin/go build -o <resourcePath>.wasm <resourcePath>` in the
   resource's directory, with an environment set up for `js`/`wasm`
   cross-compilation;
2. in the compiler's callback, reports the compiler's error if there is one;
3. otherwise reads the compiled artifact, deletes it, and emits it under
   `basename(resourcePath, ".go") + ".wasm"`;
4. returns a small JavaScript module. That module `require`s the `wasm_exec.js`
   runtime shim, imports the `gobridge` entry point, and exports a gobridge
   over `fetch('<emitted name>')`.

`src/index.ts` is the TypeScript source and `index.js` its compiled form. The
two do the same thing. In `index.js` the compiler path is a `let` that first
holds `/usr/bin/env` and is reassigned to the Go binary before use.

The model has these modules:

- `JsString`: `lastIndexOf` with a one-character search string, and `substr`,
  as JavaScript defines them.
- `NodePath`: the part of Node's POSIX `path` module the loader calls.
  - `join` is written on segments: the non-empty parts are joined by "/",
    then normalised (split at "/", drop "" and ".", let ".." pop a segment).
  - `basename(p, ext)` is a backward scan for the last component, then
    suffix removal.
- `Derivations`: what the loader computes before it spawns the compiler.
  - the resource directory, the output file, the compiler binary and its
    argument list;
  - the `opts.env` record, and the variables the child process gets from
    it: current Node releases drop those whose value is `undefined`;
  - the emitted artifact's name.
- `Bridge`: the text of the generated module: the header with the two
  `join`ed paths, and `proxyBuilder`.
- `Loader`: the run itself.
  - The class `LoaderContext` holds a virtual filesystem
    (`map<string, seq<Byte>>`), the list of emitted assets and the one-shot
    completion of `this.async()`'s callback.
  - Its methods are the loader body (`Run`), the compiler's callback
    (`OnCompiled`) and the primitives they call (`ExecFile`, `ReadFileSync`,
    `UnlinkSync`, `EmitFile`, `Complete`).
  - Every state change is also recorded as an `Effect` in a ghost trace. The
    invariant `Valid()` says the state is exactly `Replay` of the trace from
    the starting state.
  - The protocol is specified by the pure `RunEffects`, and the ordering and
    cleanup properties are lemmas about it.

The Go compiler is an abstract `CompilerOutcome`: either it fails with an
error, or it writes some bytes at the `-o` path.

## Model

| member | source | states |
|---|---|---|
| Wrappers.Lookup | src/index.ts:20-21 | reading `process.env[key]` is defined exactly when the key is present, and then gives its value |
| JsString.LastIndexOf | src/index.ts:15 | the result is -1 exactly when the character is absent; otherwise it is an index holding the character with no later occurrence |
| JsString.Substr | src/index.ts:15 | for an in-range start and length the result is that slice; a non-positive length gives "" |
| JsString.LastIndexOfSplit | src/index.ts:15 | in `a + "/" + t` with no "/" in `t`, `lastIndexOf("/")` is `|a|` |
| NodePath.Split | src/index.ts:22 | splitting at "/" gives at least one piece, and no piece contains "/" |
| NodePath.SplitThenJoin | src/index.ts:22 | joining the pieces of a split with "/" gives back the string |
| NodePath.JoinThenSplit | src/index.ts:22 | splitting a "/"-join of separator-free pieces gives back the pieces |
| NodePath.NonEmpty | src/index.ts:22 | `join` keeps no empty part |
| NodePath.NonEmptyKeepsOrder | src/index.ts:22 | dropping empty parts keeps the other parts in their order |
| NodePath.NonEmptyMembers | src/index.ts:22 | a part survives exactly when it is non-empty |
| NodePath.Normalize | src/index.ts:22 | `normalize` never returns "", and an absolute path stays absolute; its value below a canonical directory is given by NodePath.JoinBelow |
| NodePath.Join | src/index.ts:58-61 | `join` never returns ""; its value for the loader's three calls is given by NodePath.JoinChild and NodePath.JoinSibling |
| NodePath.JoinBelow | src/index.ts:22 | normalising `dir + "/" + rel` under a canonical absolute `dir` resolves `rel`'s segments on top of `dir`'s |
| NodePath.JoinChild | src/index.ts:22 | `join(dir, "./" + name)` is `dir/name` for a canonical `dir` (and `/name` when `dir` is the root) |
| NodePath.JoinSibling | src/index.ts:58-61 | `join(dir, "..", a, b)` is `a/b` below the parent of a canonical `dir` |
| NodePath.LastComponent | src/index.ts:50 | the last component holds no "/" |
| NodePath.LastComponentAfterLastSlash | src/index.ts:50 | the last component is exactly what follows the path's last "/" |
| NodePath.LastComponentSuffix | src/index.ts:50 | the last component is a suffix of the path |
| NodePath.LastComponentWhole | src/index.ts:50 | a path without "/" is its own last component |
| NodePath.Basename | src/index.ts:50 | `basename` never contains "/" |
| NodePath.BasenameCases | src/index.ts:50 | `basename(p, ext)` is "" when `p` is `ext`; when the last component is longer than `ext` and ends with it, the result is the last component with `ext` removed; otherwise it is the whole last component |
| NodePath.StripSuffix | src/index.ts:50 | removing a suffix from a separator-free name leaves a separator-free stem that the suffix completes |
| Derivations.ResourceDirectory | src/index.ts:15 | a path without "/" has directory "" (`substr(0, -1)`) |
| Derivations.ResourceDirectorySplit | src/index.ts:15 | a path with a "/" is its directory, "/", and a separator-free last component |
| Derivations.ResourceDirectoryOf | index.js:12 | appending "/" and a separator-free name to a directory and taking the directory again gives back that directory |
| Derivations.OutFile | src/index.ts:38 | the output path is five characters longer than the resource path |
| Derivations.OutFileShape | src/index.ts:38 | the output path starts with the resource path and ends in ".wasm" |
| Derivations.OutFileExclusive | index.js:35 | the output path is never the resource path itself, and distinct resources get distinct output paths |
| Derivations.GoBinary | src/index.ts:10 | a defined root gives a path 7 characters longer; an undefined root gives "undefined/bin/go" |
| Derivations.GoBinaryShape | index.js:9 | the binary ends in "/bin/go" and starts with the root when one is defined |
| Derivations.GoBinaryInjective | src/index.ts:10 | different roots give different binaries |
| Derivations.BuildArgs | src/index.ts:40 | the argument list makes `go build` compile exactly the resource into exactly the output file |
| Derivations.BuildArgsTarget | src/index.ts:40 | the argument list asks `go build` to compile exactly the resource into exactly the output file, and it is the only four-element `build -o` list that does so |
| Derivations.BuildEnvironment | src/index.ts:17-27 | `GOPATH` and `GOROOT` in `opts.env` are defined exactly when the inherited environment defines them, with the inherited values; the fixed settings are stated by Derivations.ChildEnvironmentIsolated |
| Derivations.ChildEnvironment | src/index.ts:17-27 | the child gets the four fixed variables plus `GOPATH`/`GOROOT` exactly when they are defined, each with its value from `opts.env` |
| Derivations.ChildEnvironmentIsolated | src/index.ts:17-27 | the child sees `GO111MODULE=on`, `GOOS=js`, `GOARCH=wasm` and the loader's `GOCACHE` whatever the inherited environment holds; it sees `GOPATH`/`GOROOT` unchanged exactly when they are defined; no other inherited variable reaches it through `opts.env` |
| Derivations.GoCacheInInstallDir | index.js:18 | for a canonical installation directory the cache is its `.gocache` subdirectory |
| Derivations.CompilerCommand | src/index.ts:37-42 | the `execFile` call of the compiler: binary, argument list, environment and working directory; specified by Derivations.CompilerInvocation |
| Derivations.CompilerInvocation | index.js:26-37 | the binary run is `$GOROOT/bin/go` (or "undefined/bin/go"), not the earlier `/usr/bin/env`; the target is the resource into `<resourcePath>.wasm`; the working directory is the directory the resource sits in |
| Derivations.EmittedFilename | src/index.ts:50 | the emitted name holds no "/" |
| Derivations.WasmName | index.js:44 | appending ".wasm" to a separator-free stem keeps it separator-free |
| Derivations.EmittedIsWasm | src/index.ts:50 | every emitted name ends in ".wasm" |
| Derivations.EmittedFromGoSource | src/index.ts:50 | `<dir>/<stem>.go` is emitted as `<stem>.wasm` (so `/proj/widget.go` gives `widget.wasm`) |
| Derivations.EmittedKeepsOtherNames | index.js:44 | a last component that does not end in ".go", or is exactly ".go", is emitted whole with ".wasm" appended |
| Bridge.ProxyBuilder | src/index.ts:6-8 | the file name can be read back out of the proxy text |
| Bridge.ProxyRoundTrip | src/index.ts:6-8 | the file name can be read back out of the proxy text, and the proxy text is the only text that reads back to it |
| Bridge.WasmExecPath | src/index.ts:58 | `join(__dirname, "..", "lib", "wasm_exec.js")`; its value is given by Bridge.WasmExecBesideInstall |
| Bridge.GobridgePath | src/index.ts:61 | `join(__dirname, "..", "dist", "gobridge.js")`; its value is given by Bridge.GobridgeBesideInstall |
| Bridge.Header | src/index.ts:55-62 | the first six pieces of the joined array; Bridge.GeneratedModuleNamesArtifact and Bridge.GeneratedModuleFetches locate the proxy right after it |
| Bridge.GeneratedModule | src/index.ts:53-65 | the emitted name can be read back out of the generated module |
| Bridge.GeneratedModuleNamesArtifact | src/index.ts:53-65 | the generated module reads back to the emitted name it was built for, and modules for different names differ |
| Bridge.GeneratedModuleFetches | index.js:46-54 | the generated module contains `fetch('<name>')` right after the header and the opening of the default export |
| Bridge.WasmExecBesideInstall | src/index.ts:58 | for a canonical `__dirname` the runtime shim path is `<parent>/lib/wasm_exec.js` |
| Bridge.GobridgeBesideInstall | src/index.ts:61 | for a canonical `__dirname` the bridge path is `<parent>/dist/gobridge.js` |
| Bridge.SiblingPath | index.js:48-51 | `join(dir, "..", a, b)` is `a/b` under the directory computed from `dir` as the loader computes a resource's directory |
| Bridge.ParentDirectory | index.js:12 | the directory of a canonical path is "/" followed by its parent's segments, or "" at the root |
| Loader.PlanOf | src/index.ts:37-63 | the compiler is asked to build the resource into the very file the callback reads and deletes |
| Loader.CompilerEffects | src/index.ts:42 | `execFile` starts with the spawn and afterwards only writes the output file |
| Loader.CallbackEffects | src/index.ts:43-65 | the callback's last effect is the call to webpack's callback, and no earlier effect is one |
| Loader.RunEffects | index.js:37-55 | the effects of a whole run; specified by Loader.FailureEmitsNothing, Loader.SuccessOrder, Loader.SuccessCleansUp and Loader.CallbackOnceAndLast |
| Loader.ReplayAppend | src/index.ts:42-66 | replaying two effect runs in sequence is replaying their concatenation |
| Loader.CallbackReplay | src/index.ts:42-66 | an error callback only sets the completion; a success callback removes the output, appends one asset and completes with the generated module |
| Loader.CompilerReplay | src/index.ts:42 | a failed compile leaves the world unchanged; a successful one sets the output file to the written bytes |
| Loader.FailureEmitsNothing | src/index.ts:42-46 | on a compiler error nothing is read, deleted, emitted or written, the last effect is the callback with that same error, and only the completion changes |
| Loader.SuccessOrder | src/index.ts:48-53 | on success the effects are spawn, compiler write, read, unlink, emit, callback, and emit and callback each happen once |
| Loader.SuccessCleansUp | index.js:42-45 | after success the output file is gone and nothing else in the filesystem changed; exactly one asset with the written bytes was emitted under the derived name; the callback got the generated module |
| Loader.EmittedBytesAreReadBytes | src/index.ts:48-51 | the emitted payload is the content of the output file at the moment it is read |
| Loader.CallbackOnceAndLast | index.js:37-55 | in every run the callback fires exactly once, as the last effect |
| Loader.LoaderContext.constructor | src/index.ts:13 | a fresh context has not completed, has emitted nothing, and satisfies the replay invariant |
| Loader.LoaderContext.ExecFile | src/index.ts:42 | the callback's `err` is the compiler's error; on success the output path holds the written bytes |
| Loader.LoaderContext.ReadFileSync | src/index.ts:48 | returns the file's current content and records the read |
| Loader.LoaderContext.UnlinkSync | src/index.ts:49 | removes exactly that file |
| Loader.LoaderContext.EmitFile | src/index.ts:51 | appends exactly one asset |
| Loader.LoaderContext.Complete | src/index.ts:53-65 | the callback can be called only once, and records its argument |
| Loader.LoaderContext.OnCompiled | src/index.ts:42-66 | keeps the replay invariant. On an error it passes that error on and changes nothing else. On success the output file is gone, the payload read from it is emitted under the derived name, and the callback receives the generated module |
| Loader.LoaderContext.Run | index.js:10-56 | keeps the replay invariant; its effects are exactly `RunEffects` of the request's derivations and the compiler's outcome, to which the protocol lemmas above apply |

## Left out

- The debug `execFile("/usr/bin/env", ...)` spawn, which only logs its output. It does not affect the result; only the reassignment of `goBin` past it is modelled.
- Process spawning, the Go compiler, and webpack's and Node's real APIs (`execFile`, `readFileSync`, `unlinkSync`, `this.emitFile`, `this.async`). These become the abstract compiler outcome, a map-based filesystem, an emitted list and a one-shot completion.
- Loader.LoaderContext.OnCompiled: requires the output file to be present when the compiler reports success. A throwing `readFileSync` or `unlinkSync` would leave the callback uncalled, and that path is not modelled.
- NodePath.Basename: defined only for paths that do not end in "/". Node's suffix handling has its own quirks on such paths, and a module's resource path always names a file.
- NodePath.Join and the join lemmas: `join` is written from its documented behaviour on segments, not as Node's character loop. Its lemmas assume a canonical absolute `__dirname`; the value of `__dirname` itself is an opaque parameter.
- JsString.LastIndexOf: only a one-character search string, as the loader uses it.
- Timeouts on the spawned compiler, a public-path prefix on the fetched URL, and a browser/non-browser switch in the generated module. They appear in descriptions of the loader but not in its code, so the model follows the code: a bare `fetch('<name>')` and one export form.
- What the generated JavaScript does when it runs (`fetch`, `arrayBuffer`, gobridge, wasm_exec). Only its text is modelled.
- The filesystem is keyed by absolute path. `go build` resolves `-o` against its working directory and `readFileSync` against Node's, and the two agree because webpack gives an absolute `resourcePath`. Relative paths are not modelled.
- Derivations.ChildEnvironment: gives the variables that come from `opts.env`, dropping undefined values as current Node releases do. Variables Node adds on its own, such as a forwarded `NODE_V8_COVERAGE`, are not modelled.
- Concurrent loader runs and the `GOCACHE` directory they share.
- The content of `process.env` beyond the two variables the loader copies. The inherited environment is a parameter and is never read elsewhere.
