/**
 * The generation request, the generator's configuration, the external collaborators
 * (template compiler, substitution, serialisation, packaging tool, archive validator,
 * object-store client) and the record of calls made to them.
 */
module Model {
  import opened Wrappers

  /** A JSON object of the request that carries an `id`; its other keys are opaque. */
  datatype Obj = Obj(id: string, fields: map<string, string>)

  /**
   * The DMA tuple: its id, its deployments in the mapping's iteration order, its
   * `DataAssetsMapping` (absent reads as empty, as `.get(..., dict())` does) and its other keys.
   */
  datatype Dma = Dma(
    id: string,
    deployments: seq<(string, Obj)>,
    dataAssets: map<string, string>,
    fields: map<string, string>)

  /** A generation request; `MODEL` is looked up with `.get` and so may be absent. */
  datatype Request = Request(
    dma: Dma,
    ma: Obj,
    model: Option<Obj>,
    algorithm: Obj,
    microservices: seq<Obj>,
    data: seq<Obj>)

  /** The part of the generator's configuration the pipeline reads. */
  datatype Config = Config(
    templates: map<string, string>,    // compiler.templates, by slot
    workingDirectory: Option<string>,  // generator.working_directory
    csarTool: Option<string>,          // generator.puccini_csar_tool_path
    uploadEnabled: bool)               // generator.s3_upload_config.enabled

  /** The configuration names no packaging tool (absent, or the empty string, which Python reads as false). */
  predicate ToolMissing(cfg: Config) {
    cfg.csarTool.None? || cfg.csarTool.value == ""
  }

  /** The exceptions that can leave the generation sequence. */
  datatype Error =
    | MissingKey(key: string)   // KeyError on the request
    | CompileError(msg: string) // raised by the template compiler
    | RenderError(msg: string)  // raised by template substitution or by parsing its output
    | ToolNotConfigured         // raised before packaging when no tool path is configured
    | ValidationFailed          // the generic exception that replaces the validator's MultiError
    | ValidatorError(msg: string) // any other exception of the validator, propagated as it is
    | UploadError(msg: string)  // raised by the object-store client
    | RootNotConfigured         // no working directory configured: fails before the try block

  /** What the archive validator does with an archive (absent when the tool produced none). */
  datatype Verdict = Valid | MultiError(text: string) | Crashed(msg: string)

  /** What the packaging tool does: the lines of its output, and the archive if it wrote one. */
  datatype Packaged = Packaged(lines: seq<string>, archive: Option<string>)

  /** Which substitution of a microservice a render call is: with its data item, or with the model. */
  datatype Context = FromData | FromModel

  /** One call from the pipeline to an external collaborator, as recorded in a workspace's trace. */
  datatype Call =
    | Compile(slot: string, input: Obj)
    | Render(template: Obj, context: Obj, from: Context)
    | Package(tool: string, entry: string)
    | Validate(archive: Option<string>)
    | Upload(target: string)

  /**
   * The external collaborators, as uninterpreted total functions: JSON serialisation,
   * jinja2 substitution, the compiler, the packaging tool, the validator, the upload
   * and traceback formatting. Each may answer anything, so every property proved holds
   * whatever they do.
   */
  datatype Collaborators = Collaborators(
    dumpDma: Dma -> string,
    dumpObj: Obj -> string,
    dumpRequest: Request -> string,
    substitute: (Obj, Obj) -> Result<Obj, Error>,
    compile: (Option<string>, Obj) -> Result<string, Error>,
    package: (string, string, map<string, string>) -> Packaged,
    validate: Option<string> -> Verdict,
    upload: string -> Option<string>,
    traceback: Error -> string)

  /** The template reference configured for a slot (`ddt`, `algodt`, `mdt`), if any. */
  function Template(cfg: Config, slot: string): Option<string> {
    if slot in cfg.templates then Some(cfg.templates[slot]) else None
  }

  /**
   * The first item whose id is the given one (the `next(...)` lookup over `DATA`), or
   * None when there is no such item.
   */
  function FirstWithId(items: seq<Obj>, id: string): (r: Option<Obj>)
    ensures r.None? <==> forall i :: 0 <= i < |items| ==> items[i].id != id
    ensures r.Some? ==> exists i :: 0 <= i < |items| && items[i] == r.value && items[i].id == id
                                 && forall j :: 0 <= j < i ==> items[j].id != id
    decreases |items|
  {
    if items == [] then None
    else if items[0].id == id then Some(items[0])
    else
      var r := FirstWithId(items[1..], id);
      assert r.Some? ==> exists i :: 0 <= i < |items| && items[i] == r.value && items[i].id == id
                                 && forall j :: 0 <= j < i ==> items[j].id != id by {
        if r.Some? {
          var k :| 0 <= k < |items| - 1 && items[1..][k] == r.value && items[1..][k].id == id
                   && forall j :: 0 <= j < k ==> items[1..][j].id != id;
          assert forall j :: 0 <= j < k + 1 ==> items[j].id != id by {
            forall j | 0 <= j < k + 1 ensures items[j].id != id {
              if j > 0 { assert items[j] == items[1..][j - 1]; }
            }
          }
        }
      }
      r
  }
}
