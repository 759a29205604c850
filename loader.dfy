/** One run of the loader over a Go module: start the compiler, and in its
    callback either report the compiler's error or read the artifact, delete
    it, emit it and return the generated module. The filesystem, webpack's
    emitted assets and the async callback are state of a `LoaderContext`;
    every change to that state is recorded as an `Effect`, and `Replay` gives
    the meaning of a sequence of effects. */
module Loader {
  import opened Wrappers
  import opened NodePath
  import opened Derivations
  import opened Bridge

  newtype Byte = x: int | 0 <= x < 256

  /** An error from `execFile` (spawn failure, non-zero exit), kept opaque. */
  datatype Error = Error(message: string)

  /** What the Go compiler does, as seen by the loader: it fails, or it writes
      these bytes at the output path it was given. */
  datatype CompilerOutcome = CompileError(err: Error) | Wrote(bytes: seq<Byte>)

  /** What the loader hands to webpack's async callback: `cb(err)` or
      `cb(null, source)`. */
  datatype Completion = Failed(err: Error) | Done(source: string)

  /** A file given to `this.emitFile`. */
  datatype Asset = Asset(name: string, content: seq<Byte>)

  /** The inputs of one run: the module's path, the loader's `__dirname` and the
      inherited `process.env`. */
  datatype Request = Request(resourcePath: string, dirname: string, processEnv: map<string, string>)

  /** Everything that touches the filesystem, webpack or the callback. */
  datatype Effect =
    | Spawn(command: Command)
    | CompilerWrote(path: string, bytes: seq<Byte>)
    | ReadFile(path: string)
    | Unlink(path: string)
    | Emit(asset: Asset)
    | Callback(completion: Completion)

  datatype World = World(files: map<string, seq<Byte>>, emitted: seq<Asset>, completion: Option<Completion>)

  function Apply(w: World, e: Effect): World
  {
    match e
    case Spawn(_) => w
    case CompilerWrote(path, bytes) => w.(files := w.files[path := bytes])
    case ReadFile(_) => w
    case Unlink(path) => w.(files := w.files - {path})
    case Emit(asset) => w.(emitted := w.emitted + [asset])
    case Callback(c) => w.(completion := Some(c))
  }

  /** The world after the effects, in order. */
  function Replay(w: World, effects: seq<Effect>): World
    decreases |effects|
  {
    if effects == [] then w else Replay(Apply(w, effects[0]), effects[1..])
  }

  lemma {:induction false} ReplayAppend(w: World, xs: seq<Effect>, ys: seq<Effect>)
    ensures Replay(w, xs + ys) == Replay(Replay(w, xs), ys)
    decreases |xs|
  {
    if xs != [] {
      assert (xs + ys)[0] == xs[0];
      assert (xs + ys)[1..] == xs[1..] + ys;
      ReplayAppend(Apply(w, xs[0]), xs[1..], ys);
    } else {
      assert xs + ys == ys;
    }
  }

  /** Sequence regroupings used by the class's proofs, kept apart so that the
      methods' own proofs stay small. */
  lemma AppendAssoc<T>(s: seq<T>, t: seq<T>, u: seq<T>)
    ensures s + t + u == s + (t + u)
  {
  }

  lemma AppendFour<T>(s: seq<T>, a: T, b: T, c: T, d: T)
    ensures s + [a] + [b] + [c] + [d] == s + [a, b, c, d]
  {
  }

  // ----- the protocol as a specification -----

  /** What the loader derives from a request before it starts the compiler. */
  datatype Plan = Plan(command: Command, outFile: string, emittedFilename: string, source: string)

  /** The compiler is asked to build the resource into the very file the
      callback later reads and deletes. */
  function PlanOf(req: Request): (plan: Plan)
    requires NamesFile(req.resourcePath)
    ensures BuildTarget(plan.command.args) == Some((plan.outFile, req.resourcePath))
  {
    var name := EmittedFilename(req.resourcePath);
    Plan(CompilerCommand(req.resourcePath, req.dirname, req.processEnv), OutFile(req.resourcePath),
         name, GeneratedModule(req.dirname, name))
  }

  /** The effects of the compiler's callback, given what the compiler did: the
      callback to webpack comes last, and only there. */
  function CallbackEffects(plan: Plan, outcome: CompilerOutcome): (effects: seq<Effect>)
    ensures |effects| >= 1 && effects[|effects| - 1].Callback?
    ensures forall i :: 0 <= i < |effects| - 1 ==> !effects[i].Callback?
  {
    match outcome
    case CompileError(e) => [Callback(Failed(e))]
    case Wrote(bytes) =>
      [ReadFile(plan.outFile), Unlink(plan.outFile), Emit(Asset(plan.emittedFilename, bytes)), Callback(Done(plan.source))]
  }

  /** The effects of `execFile`: the spawn and, on success, the compiler
      writing its output; it writes nothing but the output file. */
  function CompilerEffects(command: Command, outFile: string, outcome: CompilerOutcome): (effects: seq<Effect>)
    ensures |effects| >= 1 && effects[0] == Spawn(command)
    ensures forall i :: 1 <= i < |effects| ==> effects[i].CompilerWrote? && effects[i].path == outFile
  {
    [Spawn(command)] + match outcome
      case CompileError(_) => []
      case Wrote(bytes) => [CompilerWrote(outFile, bytes)]
  }

  /** The effects of one whole run: the compiler's, then the callback's. */
  function RunEffects(plan: Plan, outcome: CompilerOutcome): seq<Effect>
  {
    CompilerEffects(plan.command, plan.outFile, outcome) + CallbackEffects(plan, outcome)
  }

  /** What the callback's effects do to the world. */
  lemma CallbackReplay(plan: Plan, outcome: CompilerOutcome, w: World)
    ensures Replay(w, CallbackEffects(plan, outcome)) ==
            match outcome
            case CompileError(e) => w.(completion := Some(Failed(e)))
            case Wrote(bytes) =>
              World(w.files - {plan.outFile}, w.emitted + [Asset(plan.emittedFilename, bytes)], Some(Done(plan.source)))
  {
    var effects := CallbackEffects(plan, outcome);
    var w1 := Apply(w, effects[0]);
    if outcome.CompileError? {
      assert Replay(w1, effects[1..]) == w1;
    } else {
      var w2 := Apply(w1, effects[1]);
      var w3 := Apply(w2, effects[2]);
      var w4 := Apply(w3, effects[3]);
      assert Replay(w4, effects[4..]) == w4;
      assert Replay(w3, effects[3..]) == w4;
      assert Replay(w2, effects[2..]) == w4;
      assert Replay(w1, effects[1..]) == w4;
    }
  }

  /** What `execFile`'s effects do to the world: on success the output file
      holds exactly the bytes written. */
  lemma CompilerReplay(command: Command, outFile: string, outcome: CompilerOutcome, w: World)
    ensures Replay(w, CompilerEffects(command, outFile, outcome)) ==
            match outcome
            case CompileError(_) => w
            case Wrote(bytes) => w.(files := w.files[outFile := bytes])
  {
    var effects := CompilerEffects(command, outFile, outcome);
    var w1 := Apply(w, effects[0]);
    if outcome.CompileError? {
      assert Replay(w1, effects[1..]) == w1;
    } else {
      var w2 := Apply(w1, effects[1]);
      assert Replay(w2, effects[2..]) == w2;
      assert Replay(w1, effects[1..]) == w2;
    }
  }

  /** A failed compile reaches the callback with the compiler's own error, and
      nothing is read, deleted or emitted: the world changes only in its
      completion. */
  lemma FailureEmitsNothing(plan: Plan, e: Error, w: World)
    ensures var effects := RunEffects(plan, CompileError(e));
      && (forall i :: 0 <= i < |effects| ==>
            !effects[i].ReadFile? && !effects[i].Unlink? && !effects[i].Emit? && !effects[i].CompilerWrote?)
      && effects[|effects| - 1] == Callback(Failed(e))
      && Replay(w, effects) == w.(completion := Some(Failed(e)))
  {
    var compiler := CompilerEffects(plan.command, plan.outFile, CompileError(e));
    var callback := CallbackEffects(plan, CompileError(e));
    ReplayAppend(w, compiler, callback);
    CompilerReplay(plan.command, plan.outFile, CompileError(e), w);
    CallbackReplay(plan, CompileError(e), w);
  }

  /** A successful compile reads the output, then deletes it, then emits it,
      then completes: each once, in that order, and the callback is last. */
  lemma SuccessOrder(plan: Plan, bytes: seq<Byte>)
    ensures var effects := RunEffects(plan, Wrote(bytes));
      && |effects| == 6
      && effects[0] == Spawn(plan.command) && effects[1] == CompilerWrote(plan.outFile, bytes)
      && effects[2] == ReadFile(plan.outFile) && effects[3] == Unlink(plan.outFile)
      && effects[4].Emit? && effects[5].Callback?
      && (forall i :: 0 <= i < |effects| && effects[i].Emit? ==> i == 4)
      && (forall i :: 0 <= i < |effects| && effects[i].Callback? ==> i == 5)
  {
  }

  /** After a successful run the temporary output is gone and nothing else in
      the filesystem changed; exactly one asset was emitted, under the derived
      name, holding the bytes the compiler wrote; and the callback got the
      generated module. */
  lemma SuccessCleansUp(plan: Plan, bytes: seq<Byte>, w: World)
    ensures var after := Replay(w, RunEffects(plan, Wrote(bytes)));
      && plan.outFile !in after.files
      && after.files == w.files - {plan.outFile}
      && after.emitted == w.emitted + [Asset(plan.emittedFilename, bytes)]
      && after.completion == Some(Done(plan.source))
  {
    var compiler := CompilerEffects(plan.command, plan.outFile, Wrote(bytes));
    var callback := CallbackEffects(plan, Wrote(bytes));
    ReplayAppend(w, compiler, callback);
    CompilerReplay(plan.command, plan.outFile, Wrote(bytes), w);
    var w2 := w.(files := w.files[plan.outFile := bytes]);
    CallbackReplay(plan, Wrote(bytes), w2);
    assert w2.files - {plan.outFile} == w.files - {plan.outFile};
  }

  /** The payload emitted is the content of the output file at the moment it is
      read, whatever was at that path before the compile. */
  lemma EmittedBytesAreReadBytes(plan: Plan, bytes: seq<Byte>, w: World)
    ensures var effects := RunEffects(plan, Wrote(bytes));
            var beforeRead := Replay(w, effects[..2]);
      && effects[2] == ReadFile(plan.outFile)
      && plan.outFile in beforeRead.files
      && effects[4] == Emit(Asset(plan.emittedFilename, beforeRead.files[plan.outFile]))
  {
    var effects := RunEffects(plan, Wrote(bytes));
    assert effects[..2] == CompilerEffects(plan.command, plan.outFile, Wrote(bytes));
    CompilerReplay(plan.command, plan.outFile, Wrote(bytes), w);
  }

  /** In every run the callback fires exactly once, as the last effect. */
  lemma CallbackOnceAndLast(plan: Plan, outcome: CompilerOutcome)
    ensures var effects := RunEffects(plan, outcome);
      forall i :: 0 <= i < |effects| ==> (effects[i].Callback? <==> i == |effects| - 1)
  {
  }

  // ----- the loader context -----

  /** The state one loader invocation works on. */
  class LoaderContext {
    const request: Request
    var files: map<string, seq<Byte>>
    var emitted: seq<Asset>
    var completion: Option<Completion>
    ghost const start: World
    ghost var trace: seq<Effect>

    ghost function State(): World
      reads this
    {
      World(files, emitted, completion)
    }

    /** The resource names a file, and the state is exactly what the recorded
        effects made of the starting state. */
    ghost predicate Valid()
      reads this
    {
      NamesFile(request.resourcePath) && Replay(start, trace) == State()
    }

    /** `this.async()`: a fresh context whose callback has not been called. */
    constructor (request: Request, files: map<string, seq<Byte>>)
      requires NamesFile(request.resourcePath)
      ensures Valid()
      ensures this.request == request && this.files == files
      ensures emitted == [] && completion == None && trace == []
    {
      this.request := request;
      this.files := files;
      this.emitted := [];
      this.completion := None;
      this.start := World(files, [], None);
      this.trace := [];
    }

    /** `execFile(goBin, args, opts, ...)`: runs the compiler, which on success
        leaves its output at the `-o` path; returns the callback's `err`. */
    method ExecFile(command: Command, outcome: CompilerOutcome) returns (err: Option<Error>)
      requires BuildTarget(command.args).Some?
      modifies this`files, this`trace
      ensures err == (if outcome.CompileError? then Some(outcome.err) else None)
      ensures trace == old(trace) + CompilerEffects(command, BuildTarget(command.args).value.0, outcome)
      ensures files == (if outcome.Wrote? then old(files)[BuildTarget(command.args).value.0 := outcome.bytes]
                        else old(files))
    {
      trace := trace + [Spawn(command)];
      match outcome {
        case CompileError(e) =>
          err := Some(e);
        case Wrote(bytes) =>
          var out := BuildTarget(command.args).value.0;
          files := files[out := bytes];
          trace := trace + [CompilerWrote(out, bytes)];
          err := None;
      }
    }

    /** `readFileSync(path)`. */
    method ReadFileSync(path: string) returns (content: seq<Byte>)
      requires path in files
      modifies this`trace
      ensures content == files[path]
      ensures trace == old(trace) + [ReadFile(path)]
    {
      content := files[path];
      trace := trace + [ReadFile(path)];
    }

    /** `unlinkSync(path)`. */
    method UnlinkSync(path: string)
      requires path in files
      modifies this`files, this`trace
      ensures files == old(files) - {path}
      ensures trace == old(trace) + [Unlink(path)]
    {
      files := files - {path};
      trace := trace + [Unlink(path)];
    }

    /** `this.emitFile(name, content, null)`. */
    method EmitFile(name: string, content: seq<Byte>)
      modifies this`emitted, this`trace
      ensures emitted == old(emitted) + [Asset(name, content)]
      ensures trace == old(trace) + [Emit(Asset(name, content))]
    {
      emitted := emitted + [Asset(name, content)];
      trace := trace + [Emit(Asset(name, content))];
    }

    /** `cb(...)`: the async callback, which may be called once. */
    method Complete(c: Completion)
      requires completion == None
      modifies this`completion, this`trace
      ensures completion == Some(c)
      ensures trace == old(trace) + [Callback(c)]
    {
      completion := Some(c);
      trace := trace + [Callback(c)];
    }

    /** The callback given to the compiler's `execFile`. On an error it reports
        that error and stops; otherwise it reads the output, deletes it, emits
        it under the derived name and completes with the generated module. */
    method OnCompiled(err: Option<Error>)
      requires Valid() && completion == None
      requires err.None? ==> OutFile(request.resourcePath) in files
      modifies this`files, this`emitted, this`completion, this`trace
      ensures Valid()
      ensures var outcome := if err.Some? then CompileError(err.value)
                             else Wrote(old(files)[OutFile(request.resourcePath)]);
              trace == old(trace) + CallbackEffects(PlanOf(request), outcome)
      ensures err.Some? ==> files == old(files) && emitted == old(emitted) && completion == Some(Failed(err.value))
      ensures err.None? ==>
                var plan := PlanOf(request);
                && plan.outFile !in files && files == old(files) - {plan.outFile}
                && emitted == old(emitted) + [Asset(plan.emittedFilename, old(files)[plan.outFile])]
                && completion == Some(Done(plan.source))
    {
      if err.Some? {
        Complete(Failed(err.value));
        ghost var effects := [Callback(Failed(err.value))];
        CallbackReplay(PlanOf(request), CompileError(err.value), old(State()));
        ReplayAppend(start, old(trace), effects);
        return;
      }
      var outFile := OutFile(request.resourcePath);
      var out := ReadFileSync(outFile);
      UnlinkSync(outFile);
      var emittedFilename := EmittedFilename(request.resourcePath);
      EmitFile(emittedFilename, out);
      var source := GeneratedModule(request.dirname, emittedFilename);
      Complete(Done(source));
      ghost var plan := PlanOf(request);
      assert outFile == plan.outFile;
      assert emittedFilename == plan.emittedFilename;
      assert source == plan.source;
      ghost var effects := CallbackEffects(plan, Wrote(out));
      AppendFour(old(trace), effects[0], effects[1], effects[2], effects[3]);
      CallbackReplay(plan, Wrote(out), old(State()));
      ReplayAppend(start, old(trace), effects);
    }

    /** The loader: derive the compiler command, run the compiler, and handle
        its outcome in the callback. */
    method Run(outcome: CompilerOutcome)
      requires Valid() && completion == None
      modifies this`files, this`emitted, this`completion, this`trace
      ensures Valid()
      ensures trace == old(trace) + RunEffects(PlanOf(request), outcome)
      ensures State() == Replay(old(State()), RunEffects(PlanOf(request), outcome))
    {
      var resourceDirectory := ResourceDirectory(request.resourcePath);
      var env := BuildEnvironment(request.processEnv, request.dirname);
      // The compiled loader first assigns "/usr/bin/env" (a debug spawn that is
      // not modelled) and overwrites it before the compiler runs.
      var goBin := "/usr/bin/env";
      goBin := GoBinary(env.goRoot);
      var outFile := OutFile(request.resourcePath);
      var args := BuildArgs(outFile, request.resourcePath);
      var command := Command(goBin, args, env, resourceDirectory);
      BuildArgsTarget(outFile, request.resourcePath, args);
      ghost var before := State();
      var err := ExecFile(command, outcome);
      ghost var compiler := CompilerEffects(command, outFile, outcome);
      CompilerReplay(command, outFile, outcome, before);
      ReplayAppend(start, old(trace), compiler);
      OnCompiled(err);
      ghost var plan := PlanOf(request);
      assert command == plan.command;
      assert outFile == plan.outFile;
      ghost var callback := CallbackEffects(plan, outcome);
      AppendAssoc(old(trace), compiler, callback);
      ReplayAppend(start, old(trace), compiler + callback);
    }
  }
}
