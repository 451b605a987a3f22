/**
 * The generation pipeline as functions on the state of one workspace: the files under
 * it, its run log and the trace of collaborator calls. Each step yields the new state
 * and the exception it raised, if any; the imperative methods in module Generator are
 * proved to compute exactly these functions.
 */
module Pipeline {
  import opened Wrappers
  import opened Naming
  import opened Model

  /**
   * A workspace: file contents by path relative to it, the chunks appended to generate.log
   * (one per add_log call, oldest first; the file's text is Text(log)), the calls made.
   */
  datatype St = St(files: map<string, string>, log: seq<string>, calls: seq<Call>)

  /** The state after a step and the exception that step raised (None when it returned normally). */
  datatype Step = Step(st: St, err: Option<Error>)

  /** The state after the whole call and what the caller observes. */
  datatype Run = Run(st: St, outcome: Outcome)

  /** A normal return with its `(success, message)` pair, or the exception that propagated. */
  datatype Outcome = Completed(success: bool, message: string) | Raised(error: Error)

  const SUCCESS_MESSAGE := "ADT generated successfully"
  const LOG_HEADER := "Log of generating CSAR archive based on DMA metadata:\n"

  // ---------------------------------------------------------------------------
  // Primitive effects
  // ---------------------------------------------------------------------------

  /** add_log: appends the message to the run log as it is. */
  function AddLog(st: St, message: string): St {
    st.(log := st.log + [message])
  }

  /** The text of a log: its chunks concatenated in order. */
  function Text(chunks: seq<string>): string
    decreases |chunks|
  {
    if chunks == [] then "" else Text(chunks[..|chunks| - 1]) + chunks[|chunks| - 1]
  }

  /** The current content of a file, the empty string for a file that does not exist yet. */
  function Contents(files: map<string, string>, path: string): string {
    if path in files then files[path] else ""
  }

  /** save_to_file: opens the file for appending and writes the content and a newline. */
  function SaveToFile(st: St, dir: string, file: string, content: string): St {
    var path := Join(dir, file);
    st.(files := st.files[path := Contents(st.files, path) + content + "\n"])
  }

  function Record(st: St, call: Call): St {
    st.(calls := st.calls + [call])
  }

  // ---------------------------------------------------------------------------
  // Staging
  // ---------------------------------------------------------------------------

  /** One file written (in "w" mode, replacing any previous content). */
  datatype Write = Write(path: string, content: string)

  /** Applies writes in order; later writes to a path replace earlier ones. */
  function ApplyWrites(files: map<string, string>, ws: seq<Write>): map<string, string>
    decreases |ws|
  {
    if ws == [] then files
    else ApplyWrites(files, ws[..|ws| - 1])[ws[|ws| - 1].path := ws[|ws| - 1].content]
  }

  /** The staged files of the elements of one list, named by position and id. */
  function ListWrites(component: string, items: seq<Obj>, ext: Collaborators): (ws: seq<Write>)
    ensures |ws| == |items|
  {
    seq(|items|, i requires 0 <= i < |items| =>
      Write(IndexedStagedName(component, i, items[i].id), ext.dumpObj(items[i]) + "\n"))
  }

  /** The staged file of DMA, MA, MODEL or ALGORITHM (component k of four); None for an absent MODEL. */
  function SingletonWrite(req: Request, ext: Collaborators, k: nat): Option<Write>
    requires k < 4
  {
    if k == 0 then Some(Write(StagedName("DMA", req.dma.id), ext.dumpDma(req.dma) + "\n"))
    else if k == 1 then Some(Write(StagedName("MA", req.ma.id), ext.dumpObj(req.ma) + "\n"))
    else if k == 2 then
      (match req.model
       case None => None
       case Some(m) => Some(Write(StagedName("MODEL", m.id), ext.dumpObj(m) + "\n")))
    else Some(Write(StagedName("ALGORITHM", req.algorithm.id), ext.dumpObj(req.algorithm) + "\n"))
  }

  /** The four component files, for a request that has a MODEL. */
  function SingletonWrites(req: Request, ext: Collaborators): (ws: seq<Write>)
    requires req.model.Some?
    ensures |ws| == 4
  {
    [SingletonWrite(req, ext, 0).value, SingletonWrite(req, ext, 1).value,
     SingletonWrite(req, ext, 2).value, SingletonWrite(req, ext, 3).value]
  }

  /** Every file staging writes, in the order it writes them, for a request that has a MODEL. */
  function StagePlan(req: Request, ext: Collaborators): seq<Write>
    requires req.model.Some?
  {
    SingletonWrites(req, ext)
      + ListWrites("MICROSERVICES", req.microservices, ext)
      + ListWrites("DATA", req.data, ext)
      + [Write(GENERATE_NAME, ext.dumpRequest(req) + "\n")]
  }

  /**
   * store_input_components_as_files. Without a MODEL the lookup of its id raises a
   * KeyError after the DMA and MA files have been written.
   */
  function Stage(st: St, req: Request, ext: Collaborators): Step {
    match req.model
    case None =>
      var ws := [SingletonWrite(req, ext, 0).value, SingletonWrite(req, ext, 1).value];
      Step(st.(files := ApplyWrites(st.files, ws)), Some(MissingKey("MODEL")))
    case Some(_) =>
      Step(st.(files := ApplyWrites(st.files, StagePlan(req, ext))), None)
  }

  // ---------------------------------------------------------------------------
  // Rendering
  // ---------------------------------------------------------------------------

  /** perform_compile: the compiler call with the slot's configured template. */
  function PerformCompile(st: St, slot: string, input: Obj, cfg: Config, ext: Collaborators)
    : (Result<string, Error>, St)
  {
    (ext.compile(Template(cfg, slot), input), Record(st, Compile(slot, input)))
  }

  /**
   * The block each deployment, the algorithm and each microservice goes through: log,
   * compile, log, save the result under `fname(kind, name)` in the output directory, log.
   */
  function ConvertAndSave(st: St, kind: string, name: string, slot: string, input: Obj,
                          cfg: Config, ext: Collaborators): Step
  {
    var s1 := AddLog(st, "Converting " + kind + " \"" + name + "\"...");
    var (result, s2) := PerformCompile(s1, slot, input, cfg, ext);
    match result
    case Fail(e) => Step(s2, Some(e))
    case Ok(text) =>
      var file := FName(kind, name);
      var s3 := AddLog(AddLog(s2, " done.\n"),
                       "Saving " + kind + " \"" + name + "\" into file \"" + file + "\" ...");
      Step(AddLog(SaveToFile(s3, DIR_OUT, file, text), " done.\n"), None)
  }

  /** The deployments in mapping order; each is compiled with its `id` set to its key. */
  function Deployments(st: St, deps: seq<(string, Obj)>, cfg: Config, ext: Collaborators): Step
    decreases |deps|
  {
    if deps == [] then Step(st, None)
    else
      var (name, content) := deps[0];
      var r := ConvertAndSave(st, "deployment", name, "ddt", content.(id := name), cfg, ext);
      if r.err.Some? then r else Deployments(r.st, deps[1..], cfg, ext)
  }

  /** The algorithm. */
  function Algorithm(st: St, req: Request, cfg: Config, ext: Collaborators): Step {
    ConvertAndSave(st, "algorithm", req.algorithm.id, "algodt", req.algorithm, cfg, ext)
  }

  /** The data item a microservice is rendered with: the first DATA item with the mapped id. */
  function DataFor(ms: Obj, req: Request): Option<Obj> {
    if ms.id in req.dma.dataAssets then FirstWithId(req.data, req.dma.dataAssets[ms.id]) else None
  }

  /** A state, an exception if one was raised, and the microservice as rebound so far. */
  datatype Merge = Merge(step: Step, ms: Obj)

  /** perform_substitution of one context, after logging the given message. */
  function Substitute(st: St, ms: Obj, message: string, ctx: Obj, from: Context, ext: Collaborators): Merge {
    var s1 := AddLog(st, message);
    var s2 := Record(s1, Render(ms, ctx, from));
    match ext.substitute(ms, ctx)
    case Fail(e) => Merge(Step(s2, Some(e)), ms)
    case Ok(m) => Merge(Step(AddLog(s2, " done.\n"), None), m)
  }

  /** The data substitution: only when the id is mapped and a DATA item has the mapped id. */
  function MergeData(st: St, ms: Obj, req: Request, ext: Collaborators): Merge {
    match DataFor(ms, req)
    case None => Merge(Step(st, None), ms)
    case Some(d) =>
      var message := "Rendering microservice \"" + ms.id + "\" with data \"" + req.dma.dataAssets[ms.id] + "\"...";
      Substitute(st, ms, message, d, FromData, ext)
  }

  /** The model substitution of the (possibly already rendered) microservice, when there is a MODEL. */
  function MergeModel(st: St, ms: Obj, name: string, req: Request, ext: Collaborators): Merge {
    match req.model
    case None => Merge(Step(st, None), ms)
    case Some(m) =>
      Substitute(st, ms, "Rendering microservice \"" + name + "\" with model \"" + m.id + "\"...", m, FromModel, ext)
  }

  /** One microservice: data substitution, then model substitution, then compile and save under its original id. */
  function Microservice(st: St, ms: Obj, req: Request, cfg: Config, ext: Collaborators): Step {
    var d := MergeData(st, ms, req, ext);
    if d.step.err.Some? then d.step
    else
      var m := MergeModel(d.step.st, d.ms, ms.id, req, ext);
      if m.step.err.Some? then m.step
      else ConvertAndSave(m.step.st, "microservice", ms.id, "mdt", m.ms, cfg, ext)
  }

  /** The microservices in list order. */
  function Microservices(st: St, mss: seq<Obj>, req: Request, cfg: Config, ext: Collaborators): Step
    decreases |mss|
  {
    if mss == [] then Step(st, None)
    else
      var r := Microservice(st, mss[0], req, cfg, ext);
      if r.err.Some? then r else Microservices(r.st, mss[1..], req, cfg, ext)
  }

  // ---------------------------------------------------------------------------
  // Packaging, validation, upload
  // ---------------------------------------------------------------------------

  /** The shell form of the packaging command, as logged. */
  function CsarCommand(fullWd: string, algFname: string, tool: string): string {
    "ENTRY_DEFINITIONS=" + algFname + " " + tool + " " + Join(fullWd, FILE_OUT) + " " + Join(fullWd, DIR_OUT)
  }

  /**
   * create_csar: raises before running anything when no tool is configured; otherwise logs
   * the command, runs the tool with ENTRY_DEFINITIONS set to the algorithm's file and
   * appends every output line to the log. The tool's exit status is not looked at.
   */
  function CreateCsar(st: St, fullWd: string, algFname: string, cfg: Config, ext: Collaborators): Step {
    if ToolMissing(cfg) then Step(st, Some(ToolNotConfigured))
    else
      var tool := cfg.csarTool.value;
      var s1 := AddLog(st, "Executing csar tool: \"" + CsarCommand(fullWd, algFname, tool) + "\"" + "\n");
      var p := ext.package(tool, algFname, s1.files);
      var s2 := Record(s1, Package(tool, algFname));
      var s3 := if p.archive.Some? then s2.(files := s2.files[FILE_OUT := p.archive.value]) else s2;
      Step(s3.(log := s3.log + p.lines), None)
  }

  /** The archive as the validator finds it. */
  function Archive(st: St): Option<string> {
    if FILE_OUT in st.files then Some(st.files[FILE_OUT]) else None
  }

  /**
   * validate_csar: a MultiError is written to the log and replaced by a generic exception;
   * any other exception of the validator propagates as it is.
   */
  function ValidateCsar(st: St, ext: Collaborators): Step {
    var archive := Archive(st);
    var s1 := Record(st, Validate(archive));
    match ext.validate(archive)
    case Valid => Step(s1, None)
    case MultiError(text) =>
      Step(AddLog(AddLog(s1, "ERROR: exception occured during validation, details:\n"), text),
           Some(ValidationFailed))
    case Crashed(msg) => Step(s1, Some(ValidatorError(msg)))
  }

  /** upload_to_s3 into the prefix named after the workspace. */
  function UploadToS3(st: St, genWd: string, ext: Collaborators): Step {
    var s1 := Record(st, Upload(genWd));
    match ext.upload(genWd)
    case None => Step(s1, None)
    case Some(msg) => Step(s1, Some(UploadError(msg)))
  }

  // ---------------------------------------------------------------------------
  // perform_generate
  // ---------------------------------------------------------------------------

  /** The try block up to packaging: staging, then every deployment, the algorithm and every microservice. */
  function RenderAll(st: St, genWd: string, req: Request, cfg: Config, ext: Collaborators): Step {
    var staged := Stage(st, req, ext);
    if staged.err.Some? then staged
    else
      Convert(AddLog(AddLog(staged.st, "ADT generation process ID: " + genWd + "\n"),
                     "DMA tuple ID: " + req.dma.id + "\n"), req, cfg, ext)
  }

  /** Every deployment, then the algorithm, then every microservice, up to the first failure. */
  function Convert(st: St, req: Request, cfg: Config, ext: Collaborators): Step {
    var deps := Deployments(st, req.dma.deployments, cfg, ext);
    if deps.err.Some? then deps
    else
      var alg := Algorithm(deps.st, req, cfg, ext);
      if alg.err.Some? then alg
      else Microservices(alg.st, req.microservices, req, cfg, ext)
  }

  /** The rest of the try block: packaging, validation, and the upload when it is enabled. */
  function Assemble(st: St, fullWd: string, genWd: string, req: Request, cfg: Config,
                    ext: Collaborators): Step
  {
    var s2 := AddLog(st, "Creating csar zip starts...\n");
    var csar := CreateCsar(s2, fullWd, FName("algorithm", req.algorithm.id), cfg, ext);
    if csar.err.Some? then csar
    else
      Publish(AddLog(AddLog(csar.st, "Creating csar zip finished.\n"),
                     "Validating csar zip (with micadoparser) starts...\n"), genWd, cfg, ext)
  }

  /** Validation of the packaged archive, then the upload when it is enabled. */
  function Publish(st: St, genWd: string, cfg: Config, ext: Collaborators): Step {
    var valid := ValidateCsar(st, ext);
    if valid.err.Some? then valid
    else
      var s4 := AddLog(valid.st, "Validating csar zip finished.\n");
      if cfg.uploadEnabled then UploadToS3(s4, genWd, ext) else Step(s4, None)
  }

  /** The body of the try block of perform_generate. */
  function Body(st: St, fullWd: string, genWd: string, req: Request, cfg: Config,
                ext: Collaborators): Step
  {
    var rendered := RenderAll(st, genWd, req, cfg, ext);
    if rendered.err.Some? then rendered else Assemble(rendered.st, fullWd, genWd, req, cfg, ext)
  }

  /**
   * perform_generate: the workspace is `working_directory/genWd` (the configured root, not
   * the caller's argument). An exception in the body appends a newline and its traceback
   * to the log and propagates unchanged.
   */
  function Generate(st: St, genWd: string, req: Request, cfg: Config, ext: Collaborators): Run {
    match cfg.workingDirectory
    case None => Run(st, Raised(RootNotConfigured))
    case Some(root) =>
      var body := Body(st, Join(root, genWd), genWd, req, cfg, ext);
      match body.err
      case Some(e) => Run(AddLog(body.st, "\n" + ext.traceback(e)), Raised(e))
      case None => Run(body.st, Completed(true, SUCCESS_MESSAGE))
  }
}
