/**
 * The generator as the imperative code it is: a workspace object whose files, run log and
 * collaborator trace the steps update in place, and the root directory in which
 * workspaces are allocated. Every method is proved to compute the corresponding function
 * of module Pipeline.
 */
module Generator {
  import opened Wrappers
  import opened Naming
  import opened Model
  import Pipeline

  /** One workspace directory `root/genWd`. */
  class Workspace {
    /** Sub-directories created in the workspace. */
    var dirs: set<string>
    /** File contents by path relative to the workspace (the run log aside). */
    var files: map<string, string>
    /** The chunks appended to generate.log, oldest first; the file's text is their concatenation. */
    var log: seq<string>
    /** The calls made to external collaborators, oldest first. */
    var calls: seq<Call>

    function State(): Pipeline.St
      reads this
    {
      Pipeline.St(files, log, calls)
    }

    /** A directory just created, with nothing in it. */
    constructor Empty()
      ensures dirs == {} && files == map[] && log == [] && calls == []
    {
      dirs, files, log, calls := {}, map[], [], [];
    }

    method MakeDir(sub: string)
      modifies this
      ensures dirs == old(dirs) + {sub}
      ensures files == old(files) && log == old(log) && calls == old(calls)
    {
      dirs := dirs + {sub};
    }

    /** add_log: appends to the run log and changes nothing else. */
    method AddLog(message: string)
      modifies this
      ensures log == old(log) + [message]
      ensures dirs == old(dirs) && files == old(files) && calls == old(calls)
    {
      log := log + [message];
    }

    /** save_to_file: appends the content and a newline to the file, creating it if needed. */
    method SaveToFile(dir: string, file: string, content: string)
      modifies this
      ensures files == old(files)[Join(dir, file) := Pipeline.Contents(old(files), Join(dir, file)) + content + "\n"]
      ensures dirs == old(dirs) && log == old(log) && calls == old(calls)
    {
      var path := Join(dir, file);
      var existing := if path in files then files[path] else "";
      files := files[path := existing + content + "\n"];
    }

    /** A file opened in "w" mode and written: its previous content is replaced. */
    method WriteFile(path: string, content: string)
      modifies this
      ensures files == old(files)[path := content]
      ensures dirs == old(dirs) && log == old(log) && calls == old(calls)
    {
      files := files[path := content];
    }

    method Record(call: Call)
      modifies this
      ensures calls == old(calls) + [call]
      ensures dirs == old(dirs) && files == old(files) && log == old(log)
    {
      calls := calls + [call];
    }

    // -------------------------------------------------------------------------
    // Staging
    // -------------------------------------------------------------------------

    /** The elements of one list, each to `inputs/{component}_{index}_{id}.json`. */
    method StoreList(component: string, items: seq<Obj>, ext: Collaborators,
                     ghost base: map<string, string>, ghost before: seq<Pipeline.Write>)
      requires files == Pipeline.ApplyWrites(base, before)
      modifies this
      ensures files == Pipeline.ApplyWrites(base, before + Pipeline.ListWrites(component, items, ext))
      ensures dirs == old(dirs) && log == old(log) && calls == old(calls)
    {
      ghost var done := before;
      ghost var plan := Pipeline.ListWrites(component, items, ext);
      for index := 0 to |items|
        invariant done == before + plan[..index]
        invariant files == Pipeline.ApplyWrites(base, done)
        invariant dirs == old(dirs) && log == old(log) && calls == old(calls)
      {
        var item := items[index];
        var path := IndexedStagedName(component, index, item.id);
        var content := ext.dumpObj(item) + "\n";
        WriteFile(path, content);
        assert Pipeline.Write(path, content) == plan[index];
        assert (done + [plan[index]])[..|done|] == done;
        done := done + [plan[index]];
        assert plan[..index + 1] == plan[..index] + [plan[index]];
      }
      assert plan[..|items|] == plan;
    }

    /** store_input_components_as_files. */
    method StoreInputComponentsAsFiles(req: Request, ext: Collaborators) returns (err: Option<Error>)
      modifies this
      ensures Pipeline.Step(State(), err) == Pipeline.Stage(old(State()), req, ext)
      ensures dirs == old(dirs)
    {
      ghost var base := files;
      ghost var done: seq<Pipeline.Write> := [];
      for k := 0 to 4
        invariant |done| == k
        invariant forall j :: 0 <= j < k ==> Pipeline.SingletonWrite(req, ext, j) == Some(done[j])
        invariant files == Pipeline.ApplyWrites(base, done)
        invariant dirs == old(dirs) && log == old(log) && calls == old(calls)
      {
        var w := Pipeline.SingletonWrite(req, ext, k);
        if w.None? {
          assert done == [Pipeline.SingletonWrite(req, ext, 0).value, Pipeline.SingletonWrite(req, ext, 1).value];
          return Some(MissingKey("MODEL"));
        }
        WriteFile(w.value.path, w.value.content);
        assert (done + [w.value])[..|done|] == done;
        done := done + [w.value];
      }
      assert done == Pipeline.SingletonWrites(req, ext);
      StoreList("MICROSERVICES", req.microservices, ext, base, done);
      done := done + Pipeline.ListWrites("MICROSERVICES", req.microservices, ext);
      StoreList("DATA", req.data, ext, base, done);
      done := done + Pipeline.ListWrites("DATA", req.data, ext);
      var last := Pipeline.Write(GENERATE_NAME, ext.dumpRequest(req) + "\n");
      WriteFile(last.path, last.content);
      assert (done + [last])[..|done|] == done;
      done := done + [last];
      assert done == Pipeline.StagePlan(req, ext);
      err := None;
    }

    // -------------------------------------------------------------------------
    // Rendering
    // -------------------------------------------------------------------------

    /** perform_compile. */
    method PerformCompile(slot: string, input: Obj, cfg: Config, ext: Collaborators)
      returns (result: Result<string, Error>)
      modifies this
      ensures (result, State()) == Pipeline.PerformCompile(old(State()), slot, input, cfg, ext)
      ensures dirs == old(dirs)
    {
      Record(Compile(slot, input));
      result := ext.compile(Template(cfg, slot), input);
    }

    /** The convert-and-save block shared by deployments, the algorithm and microservices. */
    method ConvertAndSave(kind: string, name: string, slot: string, input: Obj,
                          cfg: Config, ext: Collaborators) returns (err: Option<Error>)
      modifies this
      ensures Pipeline.Step(State(), err) == Pipeline.ConvertAndSave(old(State()), kind, name, slot, input, cfg, ext)
      ensures dirs == old(dirs)
    {
      AddLog("Converting " + kind + " \"" + name + "\"...");
      var result := PerformCompile(slot, input, cfg, ext);
      if result.Fail? {
        return Some(result.error);
      }
      AddLog(" done.\n");
      var file := FName(kind, name);
      AddLog("Saving " + kind + " \"" + name + "\" into file \"" + file + "\" ...");
      SaveToFile(DIR_OUT, file, result.value);
      AddLog(" done.\n");
      err := None;
    }

    /** perform_substitution, recorded as a render call. */
    method PerformSubstitution(ms: Obj, ctx: Obj, from: Context, ext: Collaborators)
      returns (result: Result<Obj, Error>)
      modifies this
      ensures result == ext.substitute(ms, ctx)
      ensures calls == old(calls) + [Render(ms, ctx, from)]
      ensures dirs == old(dirs) && files == old(files) && log == old(log)
    {
      Record(Render(ms, ctx, from));
      result := ext.substitute(ms, ctx);
    }

    /** The data substitution of a microservice (first step of the merge). */
    method RenderWithData(ms: Obj, req: Request, ext: Collaborators)
      returns (err: Option<Error>, rendered: Obj)
      modifies this
      ensures Pipeline.Merge(Pipeline.Step(State(), err), rendered) == Pipeline.MergeData(old(State()), ms, req, ext)
      ensures dirs == old(dirs)
    {
      var msName := ms.id;
      rendered, err := ms, None;
      if msName in req.dma.dataAssets {
        var dataId := req.dma.dataAssets[msName];
        var dataContent := FirstWithId(req.data, dataId);
        if dataContent.Some? {
          AddLog("Rendering microservice \"" + msName + "\" with data \"" + dataId + "\"...");
          var r := PerformSubstitution(ms, dataContent.value, FromData, ext);
          if r.Fail? {
            return Some(r.error), ms;
          }
          rendered := r.value;
          AddLog(" done.\n");
        }
      }
    }

    /** The model substitution of a microservice, applied to the result of the data step. */
    method RenderWithModel(ms: Obj, msName: string, req: Request, ext: Collaborators)
      returns (err: Option<Error>, rendered: Obj)
      modifies this
      ensures Pipeline.Merge(Pipeline.Step(State(), err), rendered) == Pipeline.MergeModel(old(State()), ms, msName, req, ext)
      ensures dirs == old(dirs)
    {
      rendered, err := ms, None;
      var modelContent := req.model;
      if modelContent.Some? {
        var modelId := modelContent.value.id;
        AddLog("Rendering microservice \"" + msName + "\" with model \"" + modelId + "\"...");
        var r := PerformSubstitution(ms, modelContent.value, FromModel, ext);
        if r.Fail? {
          return Some(r.error), ms;
        }
        rendered := r.value;
        AddLog(" done.\n");
      }
    }

    /** One microservice: data substitution, then model substitution, then compile and save under its original id. */
    method Microservice(ms: Obj, req: Request, cfg: Config, ext: Collaborators)
      returns (err: Option<Error>)
      modifies this
      ensures Pipeline.Step(State(), err) == Pipeline.Microservice(old(State()), ms, req, cfg, ext)
      ensures dirs == old(dirs)
    {
      var msName := ms.id;
      var current;
      err, current := RenderWithData(ms, req, ext);
      if err.Some? {
        return;
      }
      err, current := RenderWithModel(current, msName, req, ext);
      if err.Some? {
        return;
      }
      err := ConvertAndSave("microservice", msName, "mdt", current, cfg, ext);
    }

    /** The deployments loop of perform_generate. */
    method ConvertDeployments(deps: seq<(string, Obj)>, cfg: Config, ext: Collaborators)
      returns (err: Option<Error>)
      modifies this
      ensures Pipeline.Step(State(), err) == Pipeline.Deployments(old(State()), deps, cfg, ext)
      ensures dirs == old(dirs)
    {
      var i := 0;
      while i < |deps|
        invariant 0 <= i <= |deps|
        invariant Pipeline.Deployments(old(State()), deps, cfg, ext) == Pipeline.Deployments(State(), deps[i..], cfg, ext)
        invariant dirs == old(dirs)
      {
        var (name, content) := deps[i];
        assert deps[i..][0] == deps[i] && deps[i..][1..] == deps[i + 1..];
        err := ConvertAndSave("deployment", name, "ddt", content.(id := name), cfg, ext);
        if err.Some? {
          return;
        }
        i := i + 1;
      }
      err := None;
    }

    /** The microservices loop of perform_generate. */
    method ConvertMicroservices(mss: seq<Obj>, req: Request, cfg: Config, ext: Collaborators)
      returns (err: Option<Error>)
      modifies this
      ensures Pipeline.Step(State(), err) == Pipeline.Microservices(old(State()), mss, req, cfg, ext)
      ensures dirs == old(dirs)
    {
      var j := 0;
      while j < |mss|
        invariant 0 <= j <= |mss|
        invariant Pipeline.Microservices(old(State()), mss, req, cfg, ext) == Pipeline.Microservices(State(), mss[j..], req, cfg, ext)
        invariant dirs == old(dirs)
      {
        assert mss[j..][0] == mss[j] && mss[j..][1..] == mss[j + 1..];
        err := Microservice(mss[j], req, cfg, ext);
        if err.Some? {
          return;
        }
        j := j + 1;
      }
      err := None;
    }

    // -------------------------------------------------------------------------
    // Packaging, validation, upload
    // -------------------------------------------------------------------------

    /** create_csar. */
    method CreateCsar(fullWd: string, algFname: string, cfg: Config, ext: Collaborators)
      returns (err: Option<Error>)
      modifies this
      ensures Pipeline.Step(State(), err) == Pipeline.CreateCsar(old(State()), fullWd, algFname, cfg, ext)
      ensures dirs == old(dirs)
    {
      if ToolMissing(cfg) {
        return Some(ToolNotConfigured);
      }
      var tool := cfg.csarTool.value;
      AddLog("Executing csar tool: \"" + Pipeline.CsarCommand(fullWd, algFname, tool) + "\"" + "\n");
      var p := ext.package(tool, algFname, files);
      Record(Package(tool, algFname));
      if p.archive.Some? {
        WriteFile(FILE_OUT, p.archive.value);
      }
      ghost var before := log;
      for i := 0 to |p.lines|
        invariant log == before + p.lines[..i]
        invariant dirs == old(dirs)
        invariant files == if p.archive.Some? then old(files)[FILE_OUT := p.archive.value] else old(files)
        invariant calls == old(calls) + [Package(tool, algFname)]
      {
        AddLog(p.lines[i]);
        assert p.lines[..i + 1][..i] == p.lines[..i];
      }
      assert p.lines[..|p.lines|] == p.lines;
      err := None;
    }

    /** validate_csar. */
    method ValidateCsar(ext: Collaborators) returns (err: Option<Error>)
      modifies this
      ensures Pipeline.Step(State(), err) == Pipeline.ValidateCsar(old(State()), ext)
      ensures dirs == old(dirs)
    {
      var archive := if FILE_OUT in files then Some(files[FILE_OUT]) else None;
      Record(Validate(archive));
      var verdict := ext.validate(archive);
      match verdict
      case Valid =>
        err := None;
      case MultiError(text) =>
        AddLog("ERROR: exception occured during validation, details:\n");
        AddLog(text);
        err := Some(ValidationFailed);
      case Crashed(msg) =>
        err := Some(ValidatorError(msg));
    }

    /** upload_to_s3. */
    method UploadToS3(genWd: string, ext: Collaborators) returns (err: Option<Error>)
      modifies this
      ensures Pipeline.Step(State(), err) == Pipeline.UploadToS3(old(State()), genWd, ext)
      ensures dirs == old(dirs)
    {
      Record(Upload(genWd));
      var failure := ext.upload(genWd);
      err := if failure.Some? then Some(UploadError(failure.value)) else None;
    }

    // -------------------------------------------------------------------------
    // perform_generate
    // -------------------------------------------------------------------------

    /** The try block of perform_generate. */
    method GenerateBody(fullWd: string, genWd: string, req: Request, cfg: Config, ext: Collaborators)
      returns (err: Option<Error>)
      modifies this
      ensures Pipeline.Step(State(), err) == Pipeline.Body(old(State()), fullWd, genWd, req, cfg, ext)
      ensures dirs == old(dirs)
    {
      err := StoreInputComponentsAsFiles(req, ext);
      if err.Some? {
        return;
      }
      AddLog("ADT generation process ID: " + genWd + "\n");
      var dmaId := req.dma.id;
      AddLog("DMA tuple ID: " + dmaId + "\n");

      err := ConvertDeployments(req.dma.deployments, cfg, ext);
      if err.Some? {
        return;
      }
      var algName := req.algorithm.id;
      err := ConvertAndSave("algorithm", algName, "algodt", req.algorithm, cfg, ext);
      if err.Some? {
        return;
      }
      var algFname := FName("algorithm", algName);
      err := ConvertMicroservices(req.microservices, req, cfg, ext);
      if err.Some? {
        return;
      }

      AddLog("Creating csar zip starts...\n");
      err := CreateCsar(fullWd, algFname, cfg, ext);
      if err.Some? {
        return;
      }
      AddLog("Creating csar zip finished.\n");

      AddLog("Validating csar zip (with micadoparser) starts...\n");
      err := ValidateCsar(ext);
      if err.Some? {
        return;
      }
      AddLog("Validating csar zip finished.\n");

      if cfg.uploadEnabled {
        err := UploadToS3(genWd, ext);
      }
    }

    /**
     * perform_generate: any exception of the body appends a newline and its traceback to
     * the log and propagates; otherwise the call returns `(true, "ADT generated successfully")`.
     */
    method PerformGenerate(genWd: string, req: Request, cfg: Config, ext: Collaborators)
      returns (outcome: Pipeline.Outcome)
      modifies this
      ensures Pipeline.Run(State(), outcome) == Pipeline.Generate(old(State()), genWd, req, cfg, ext)
      ensures dirs == old(dirs)
    {
      if cfg.workingDirectory.None? {
        return Pipeline.Raised(RootNotConfigured);
      }
      var fullWd := Join(cfg.workingDirectory.value, genWd);
      var err := GenerateBody(fullWd, genWd, req, cfg, ext);
      if err.Some? {
        AddLog("\n" + ext.traceback(err.value));
        return Pipeline.Raised(err.value);
      }
      outcome := Pipeline.Completed(true, Pipeline.SUCCESS_MESSAGE);
    }
  }

  /** The configured generation root, seen as the set of names that exist directly under it. */
  class GenerationRoot {
    var entries: set<string>

    constructor (existing: set<string>)
      ensures entries == existing
    {
      entries := existing;
    }

    /**
     * init_working_directory. `clock` is the sequence of timestamps the clock shows on
     * successive reads; the loop takes the first one that names no existing entry. When
     * every reading collides the loop has not terminated within them, which is reported
     * as None with nothing created.
     */
    method InitWorkingDirectory(clock: seq<string>) returns (genWd: Option<string>, ws: Workspace?)
      modifies this
      ensures genWd.None? <==> ws == null
      ensures genWd.None? ==>
        entries == old(entries) && forall i :: 0 <= i < |clock| ==> clock[i] in old(entries)
      ensures genWd.Some? ==>
        && (exists k :: 0 <= k < |clock| && clock[k] == genWd.value
                        && forall j :: 0 <= j < k ==> clock[j] in old(entries))
        && genWd.value !in old(entries)
        && entries == old(entries) + {genWd.value}
      ensures ws != null ==>
        && fresh(ws)
        && ws.dirs == {DIR_IN, DIR_OUT} && ws.files == map[]
        && ws.log == [Pipeline.LOG_HEADER] && ws.calls == []
    {
      var i := 0;
      while i < |clock| && clock[i] in entries
        invariant 0 <= i <= |clock|
        invariant forall j :: 0 <= j < i ==> clock[j] in entries
      {
        i := i + 1;
      }
      if i == |clock| {
        return None, null;
      }
      var name := clock[i];
      entries := entries + {name};
      ws := new Workspace.Empty();
      ws.MakeDir(DIR_IN);
      ws.MakeDir(DIR_OUT);
      ws.AddLog(Pipeline.LOG_HEADER);
      genWd := Some(name);
    }
  }
}
