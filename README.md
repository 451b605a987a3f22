# ADT generator, modelled and verified in Dafny

This project models the generation pipeline of the ADT generator (`adtg_generate.py`).
The generator takes a DMA request (a DMA tuple, an MA, an optional MODEL, an ALGORITHM,
a list of MICROSERVICES and a list of DATA items) and does the following, in order:

1. Works in `<configured root>/<gen_wd>`, where the caller has first allocated `gen_wd`
   as a fresh, timestamp-named workspace under a root of its own choosing
   (`init_working_directory`; `perform_generate` itself never calls it).
2. Stages every request component as a JSON file under `inputs/`.
3. Compiles each deployment of the DMA, then the algorithm, then each microservice into
   YAML artifacts under `csar/`. A microservice is first rendered with its mapped DATA
   item, then with the MODEL.
4. Packages the artifacts into `dma_adt.csar` with the external CSAR tool.
5. Validates the archive.
6. Optionally uploads the archive and the log to S3.

Rendering, packaging and validation append progress messages to the run log
`generate.log`; staging and the upload write none. Any exception inside the try block
appends a traceback to the log and propagates unchanged.

The model has two layers:

- **Pure specification.** Module `Pipeline` is an executable specification. Each step is
  a function from a workspace state to a new state plus the exception raised, if any.
  The state `St` holds the files, the run log and the trace of calls made to external
  collaborators. The log is kept as the chunks appended by each `add_log` call, and the
  text of `generate.log` is their concatenation (`Pipeline.Text`). `Pipeline.Generate` is
  `perform_generate`.
- **Imperative model.** Module `Generator` has the same steps as the source's own
  imperative code: the class `Workspace` has fields that its methods update in place, with
  loops for the staging, deployment and microservice iterations and for streaming the
  packaging tool's output into the log. The class `GenerationRoot` allocates workspaces
  with a retry loop. Every method that carries out a step of the pipeline (staging, each
  conversion, substitution step, loop, packaging, validation, upload, the try block and
  perform_generate) has an `ensures` saying that its new state and result are exactly
  the corresponding `Pipeline` function of the old state. The primitive effects
  (`MakeDir`, `AddLog`, `SaveToFile`, `WriteFile`, `Record`, `PerformSubstitution`) state
  their change to the fields directly. `StoreList` is stated through
  `Pipeline.ApplyWrites`. `GenerationRoot.InitWorkingDirectory` has its own contract
  about the clock readings, the root's entries and the new, empty workspace.

The external collaborators are fields of the datatype `Model.Collaborators`: the template
compiler, jinja2 substitution, JSON serialisation, the CSAR tool, the micadoparser
validator, the S3 upload and traceback formatting. They are uninterpreted functions, so
every property holds for every result the collaborators might return. They are assumed
deterministic and to write no file except the archive the CSAR tool produces; the frame
lemmas of module `Artifacts` (`CreateCsarKeepsArtifacts`, `AssembleKeepsArtifacts`,
`GenerateArtifacts`) rest on that assumption.

Module `Properties` proves what the pipeline promises about that specification:

- Deterministic naming.
- Staging that never overwrites one component with another.
- Merge selection and order of each microservice.
- The exact order of compiler calls, and fail-fast packaging and file writes.
- An append-only log.
- The traceback on failure.
- The gating of packaging, validation and upload.
- An exact characterisation of a completed run.

Module `Ordering` gives an independent account of the rendering loops: the exact sequence
of compiler and substitution calls, and the set of artifact files they write. It proves
that the loops match it, and that a failing run writes nothing after its first failure.

Module `Artifacts` states what the artifact files hold. Each phase is described as a sequence
of appends, one per saved component, each being the compiled text followed by a newline.
It proves that every file under `csar/` ends the run holding its old content followed by
the texts appended to it, in order. In a completed run on a fresh workspace, each
artifact therefore holds exactly its compiled text and a newline.

Module `Naming` holds the constants and file-name schemes. Module `Model` holds the data
of a request, the configuration, the errors and the collaborator interface.

## Model

| member | source | states |
|---|---|---|
| Naming.FNameRoundTrip | adtg_generate.py:79-80 | the component id can be read back from `fname(type, id)` = `type.id.yaml` |
| Naming.ParseFNameSound | adtg_generate.py:79-80 | every name that parses as an artifact of a kind is exactly `fname` of the parsed id |
| Naming.FNameInjective | adtg_generate.py:79-80 | different ids of one kind give different artifact files |
| Naming.ArtifactKindsDisjoint | adtg_generate.py:79-80 | deployment, algorithm and microservice artifacts never share a file name |
| Naming.NatToString | adtg_generate.py:59 | `str(index)` is a non-empty decimal numeral without a leading zero |
| Naming.ParseNatToString | adtg_generate.py:59 | the decimal numeral of an index reads back as that index |
| Naming.NatToStringInjective | adtg_generate.py:59 | distinct indices give distinct numerals |
| Naming.BeforeUnderscoreOfJoin | adtg_generate.py:59 | the part of a staged list-item name before the first `_` after the component is the index numeral |
| Naming.IndexedStagedNamesDistinct | adtg_generate.py:55-63 | two list items at different positions are staged under different names, whatever their ids |
| Model.FirstWithId | adtg_generate.py:166 | the lookup is None exactly when no DATA item has the id; otherwise it is the first item that does |
| Generator.Workspace.AddLog | adtg_generate.py:22-26 | add_log appends the message to the log and changes nothing else |
| Generator.Workspace.SaveToFile | adtg_generate.py:16-20 | save_to_file appends content and a newline to the file, creating it if absent |
| Generator.Workspace.WriteFile | adtg_generate.py:52-53 | a file opened for writing holds exactly the content written |
| Generator.Workspace.StoreList | adtg_generate.py:55-63 | the indexed loop writes each list item, in order, under its position-indexed name |
| Generator.Workspace.StoreInputComponentsAsFiles | adtg_generate.py:47-68 | staging writes DMA, MA, MODEL and ALGORITHM, then the two lists, then GENERATE.json; a missing MODEL raises after the DMA and MA files |
| Generator.Workspace.PerformCompile | adtg_generate.py:74-77 | the compiler is called once with the template configured for the slot, and its result is returned |
| Generator.Workspace.ConvertAndSave | adtg_generate.py:144-151 | one component is converted and saved: the log lines, the compile call, and the save under `csar/` only on success |
| Generator.Workspace.PerformSubstitution | adtg_generate.py:70-72 | one substitution call with the microservice as template and the context as data |
| Generator.Workspace.RenderWithData | adtg_generate.py:164-170 | the data step runs only for a mapped id with a matching DATA item, using the first such item |
| Generator.Workspace.RenderWithModel | adtg_generate.py:171-176 | the model step renders the result of the data step when a MODEL is present |
| Generator.Workspace.Microservice | adtg_generate.py:162-183 | one microservice is rendered with its data, then the model, then compiled and saved under its original id |
| Generator.Workspace.ConvertDeployments | adtg_generate.py:143-151 | the deployments loop, in mapping order, stops at the first failure |
| Generator.Workspace.ConvertMicroservices | adtg_generate.py:162-183 | the microservices loop, in list order, stops at the first failure |
| Generator.Workspace.CreateCsar | adtg_generate.py:82-100 | with no tool configured it raises before running anything; otherwise it logs the command, runs the tool with the algorithm file as entry point and appends each output line to the log |
| Generator.Workspace.ValidateCsar | adtg_generate.py:102-113 | one validator call; a MultiError logs its header and text and then raises |
| Generator.Workspace.UploadToS3 | adtg_generate.py:115-123 | one upload call targeting the workspace name |
| Generator.Workspace.GenerateBody | adtg_generate.py:133-210 | the try block: staging, rendering, packaging, validation, and the upload when it is enabled |
| Generator.Workspace.PerformGenerate | adtg_generate.py:125-216 | perform_generate on the configured root: the traceback is appended and the exception re-raised, and normal completion returns the success message |
| Generator.GenerationRoot.InitWorkingDirectory | adtg_generate.py:28-40 | it returns the first timestamp name absent from the root, creates exactly that workspace with `inputs` and `csar`, and the log holds only the header |
| Properties.StagePlanUnderInputs | adtg_generate.py:51-64 | every staged file's path starts with `inputs/` |
| Properties.StagedNames | adtg_generate.py:49-67 | `inputs/{C}_{id}.json` for the four singletons, `inputs/{C}_{index}_{id}.json` with zero-based indices restarting per list, and GENERATE.json last |
| Properties.StagePlanDistinct | adtg_generate.py:49-67 | no two staged files share a name |
| Properties.StagedFilesIntact | adtg_generate.py:47-68 | after staging, every staged file holds its component's serialisation; without a MODEL the DMA and MA files are written and a KeyError is raised |
| Properties.StageRenderingOnly | adtg_generate.py:47-68 | staging leaves the log and the trace unchanged, removes no file and does not touch the archive |
| Properties.ConvertAndSaveCalls | adtg_generate.py:144-151 | converting makes exactly one compile call and fails exactly when the compiler fails, with its error; on success it appends the compiled text and a newline to the artifact file (created if absent) and changes no other file; on failure no file changes |
| Properties.ConvertAndSaveRenderingOnly | adtg_generate.py:144-151 | converting only grows the log, makes exactly one new call, a compile call, and leaves the archive alone |
| Properties.MicroserviceRenderingOnly | adtg_generate.py:162-183 | a microservice makes only substitution and compile calls |
| Properties.DeploymentsRenderingOnly | adtg_generate.py:143-151 | the deployments loop only grows the log, leaves the archive alone and makes compile calls only |
| Properties.MicroservicesRenderingOnly | adtg_generate.py:162-183 | the microservices loop makes only substitution and compile calls |
| Properties.RenderAllRenderingOnly | adtg_generate.py:133-183 | nothing before packaging calls the tool, the validator or the upload, or touches the archive |
| Properties.MicroserviceCalls | adtg_generate.py:162-183 | a microservice's calls are the data substitution, the model substitution and the compile, each only if the previous step succeeded |
| Properties.MicroserviceMerge | adtg_generate.py:162-183 | the data substitution with the first matching item comes first and only when mapped; no data substitution follows the model one; the model renders the data step's result; nothing is compiled after a failed substitution; the file uses the id read before substitution |
| Properties.DeploymentsOutcome | adtg_generate.py:143-151 | the deployments loop succeeds exactly when every deployment compiles with its id set to its key, and then each has its artifact |
| Properties.MicroservicesOutcome | adtg_generate.py:162-183 | the microservices loop succeeds exactly when every microservice renders, and then each has its artifact |
| Properties.RenderAllOutcome | adtg_generate.py:133-183 | rendering succeeds exactly when there is a MODEL and every component renders, and then all artifacts exist |
| Ordering.DeploymentsCallOrder | adtg_generate.py:143-151 | the compile calls are the deployments in mapping order, up to the first failure |
| Ordering.MicroservicesCallOrder | adtg_generate.py:162-183 | the calls are each microservice's calls in list order, up to the first failure |
| Ordering.ConvertCallOrder | adtg_generate.py:143-183 | deployments, then (only if all compiled) the algorithm, then (only if it compiled) the microservices |
| Ordering.RenderAllCallOrder | adtg_generate.py:133-183 | staging calls nothing, and the rest of rendering makes exactly the calls of ConvertCallOrder |
| Ordering.ConvertAndSaveFiles | adtg_generate.py:146-150 | the artifact file is created only when the compiler succeeds |
| Ordering.DeploymentsFiles | adtg_generate.py:143-151 | the loop creates exactly the files of the deployments compiled before the first failure |
| Ordering.MicroserviceFiles | adtg_generate.py:162-183 | a microservice creates its own artifact file exactly when it renders, and no other file |
| Ordering.MicroservicesFiles | adtg_generate.py:162-183 | the loop creates exactly the files of the microservices rendered before the first failure |
| Ordering.DeploymentsWrittenOnlyAfterSuccess | adtg_generate.py:143-151 | a deployment's file is written only when that deployment and every earlier one compiled |
| Ordering.MicroservicesWrittenOnlyAfterSuccess | adtg_generate.py:162-183 | a microservice's file is written only when that microservice and every earlier one rendered |
| Ordering.ConvertFiles | adtg_generate.py:143-183 | conversion creates the deployments' artifacts up to the first failure, then the algorithm's and the microservices' only if every deployment compiled and then the algorithm did |
| Ordering.RenderAllFiles | adtg_generate.py:133-183 | everything before packaging creates the staged files and then exactly the artifacts of ConvertFiles, none when staging raises |
| Properties.CreateCsarOutcome | adtg_generate.py:82-100 | a missing tool raises with nothing run; otherwise one tool call with the algorithm's file as entry point, and the archive is the one it produced |
| Properties.ValidateCsarOutcome | adtg_generate.py:102-113 | one validation of the archive; it passes exactly when the validator accepts; a MultiError raises with its text as the last log chunk |
| Properties.UploadOutcome | adtg_generate.py:115-123 | one upload call, which fails exactly when the upload fails |
| Properties.PublishOutcome | adtg_generate.py:194-210 | validation, then the upload exactly when it is enabled and validation passed |
| Properties.AssembleOutcome | adtg_generate.py:185-210 | packaging, then validation, then an upload exactly when it is enabled and validation passed; success exactly when both pass |
| Properties.TextAppend | adtg_generate.py:22-26 | the text of a log written in two parts is the two texts in order |
| Properties.TextGrows | adtg_generate.py:22-26 | from one state to a later one, the text of generate.log only grows |
| Properties.GenerateUnfolds | adtg_generate.py:132-216 | a configured run is its try block; an exception appends a newline and the traceback as the last log chunk and is re-raised; otherwise the success pair is returned |
| Properties.GenerateAppendOnly | adtg_generate.py:212-214 | the log and the trace only grow, no file vanishes, and a raised exception leaves its traceback, after a newline, as the last log chunk |
| Ordering.FailFast | adtg_generate.py:133-214 | if staging fails or any component fails to render, the call raises; packaging, validation and upload are never reached; the files created are the staged ones and the artifacts written before the first failure, so none of the algorithm or the microservices after a failed deployment and none of the microservices after a failed algorithm; an unconfigured run changes nothing |
| Properties.AssembleTrace | adtg_generate.py:185-210 | the calls after rendering are tool, validation, and the upload only when it is enabled and validation passed |
| Properties.GenerateCalls | adtg_generate.py:132-211 | the trace is the rendering calls followed, if they all succeeded, by the packaging, validation and upload calls |
| Properties.UploadGating | adtg_generate.py:198-210 | an upload happens exactly when it is enabled and validation passed; it is then the last call, right after that validation |
| Properties.CompletedExactly | adtg_generate.py:125-216 | a run completes exactly when root, rendering, tool, validation and enabled upload all succeed; it then returns `(True, "ADT generated successfully")` with every artifact present |
| Artifacts.AppendAllContents | adtg_generate.py:16-20 | after a sequence of appends a file holds its old content followed by every text appended to it, in order |
| Artifacts.AppendAllConcat | adtg_generate.py:16-20 | two sequences of appends one after the other are the appends of both |
| Artifacts.DeploymentsSaved | adtg_generate.py:143-151 | the deployments loop appends each compiled deployment and a newline to its artifact, in mapping order up to the first failure, and changes no other file |
| Artifacts.MicroserviceSaved | adtg_generate.py:162-183 | one microservice appends its compiled merged descriptor and a newline to its artifact when it renders, and changes no file otherwise |
| Artifacts.MicroservicesSaved | adtg_generate.py:162-183 | the microservices loop appends each compiled microservice to its artifact, in list order up to the first failure |
| Artifacts.AfterDeploymentsSaved | adtg_generate.py:153-183 | after the deployments, the algorithm's text is appended and then, only if it compiled, the microservices' |
| Artifacts.ConvertSaved | adtg_generate.py:143-183 | conversion appends exactly the deployments' texts up to the first failure, then the algorithm's and the microservices' only if all earlier components compiled |
| Artifacts.StageKeepsArtifacts | adtg_generate.py:47-68 | staging changes no file under `csar/` |
| Artifacts.CreateCsarKeepsArtifacts | adtg_generate.py:82-100 | the packaging tool changes no file but the archive |
| Artifacts.PublishKeepsFiles | adtg_generate.py:194-210 | validation and upload change no file |
| Artifacts.AssembleKeepsArtifacts | adtg_generate.py:185-210 | packaging, validation and upload change no file but the archive |
| Artifacts.GenerateArtifacts | adtg_generate.py:125-216 | in a configured run every file under `csar/` ends holding its old content followed by the texts appended before packaging, in order; an unconfigured run changes nothing |
| Artifacts.ArtifactPathInjective | adtg_generate.py:79-80 | two artifacts of one kind share a path only if they share an id |
| Artifacts.ArtifactPathsDisjoint | adtg_generate.py:79-80 | artifacts of different kinds never share a path |
| Artifacts.DeploymentsSavesAll | adtg_generate.py:143-151 | when every deployment compiles, the loop saves one text per deployment, in mapping order |
| Artifacts.MicroservicesSavesAll | adtg_generate.py:162-183 | when every microservice renders, the loop saves one text per microservice, in list order |
| Artifacts.SaveAt | adtg_generate.py:143-183 | a fully rendered request saves every deployment, then the algorithm, then every microservice, each as its compiled text and a newline |
| Artifacts.SavesUnique | adtg_generate.py:143-183 | with distinct deployment keys and microservice ids, no two saves of a fully rendered request target one file |
| Artifacts.CompletedArtifactTexts | adtg_generate.py:125-216 | in a completed run on a fresh workspace with distinct keys and ids, each deployment's, the algorithm's and each microservice's artifact holds exactly its compiled text and a newline |

## Left out

- The real filesystem, `open` and `os.path.join`: workspaces are a map from paths relative
  to the workspace to contents, plus a set of created sub-directories. The log is kept
  apart, as the sequence of chunks appended to it. OS errors are not modelled.
- `os.path.join`: `Naming.Join` always inserts exactly one `/`. For a `working_directory`
  that is empty or ends in `/`, `os.path.join` gives a different text, so the workspace
  path and the command logged by create_csar (`Pipeline.CsarCommand`) differ from the
  source's in that case.
- `subprocess.Popen`: the CSAR tool is an oracle that returns the lines it prints and
  whether it produced an archive. The environment variable `ENTRY_DEFINITIONS` is the
  entry argument of the `Package` call. The exit status is not checked, as in the source.
  The tool is assumed deterministic and to write no file except `dma_adt.csar`; the real
  process could write anywhere, and the model does not cover that.
- boto3: the upload is an oracle that returns an optional error and is recorded as an
  `Upload(target)` call. The credentials, bucket and the two uploaded files are not
  modelled.
- jinja2, `json.dumps` and `json.loads`: substitution and serialisation are oracles.
- The template compiler and micadoparser: oracles returning success or failure.
- `datetime.now()`: a sequence of candidate timestamp names.
- `log.debug` and `log.info`: no behaviour to verify. The process logger is not modelled.
- `traceback.format_exc()`: an oracle on the raised error.
- `check_input_validity`: an empty placeholder with no behaviour.
- Generator.GenerationRoot.InitWorkingDirectory: the source retries forever until a
  free name appears. The model tries a finite clock sequence and returns None (creating
  nothing) when every name in it is taken.
- Generator.GenerationRoot.InitWorkingDirectory: the source checks that the name is free
  (line 32) and creates the directory later (line 34). A directory created concurrently
  in between makes `os.makedirs` raise. The model checks and creates in one step and does
  not model concurrent processes.
- Generator.Workspace.CreateCsar: the tool's output lines are appended after it has
  finished, not while it streams.
- Missing required keys other than MODEL (a KeyError in the source) are not modelled.
  Requests are well-formed records. MODEL is optional, because the source tests for it.
- Deployment keys come from a Python dict and so are unique. The model's sequence of
  pairs does not enforce that. Artifacts.CompletedArtifactTexts assumes it.
- Line 145 (`dmt_content['id']=dmt_name`) sets `id` on the caller's deployment dict in
  place, so after the call every deployment of the caller's request carries its key as
  `id`. The model compiles `content.(id := name)` and leaves the request unchanged. Nothing
  later in the run reads the deployments again, so only the caller could see the
  difference.
- A MODEL that is present but null makes line 51 raise a TypeError, after the DMA and MA
  files. The model's MODEL is an `Option`, so null and absent are both `None`, and both
  raise `MissingKey("MODEL")` at the same point.
- Properties.DeploymentsOutcome, Properties.MicroservicesOutcome, Properties.RenderAllOutcome:
  state that each artifact exists. What the artifacts hold is stated by
  Artifacts.DeploymentsSaved, Artifacts.MicroservicesSaved, Artifacts.ConvertSaved and
  Artifacts.GenerateArtifacts.
- Properties.CompletedExactly: states that each artifact of a completed run exists. Its
  content is stated by Artifacts.CompletedArtifactTexts.
- Artifacts.CompletedArtifactTexts: stated for a workspace with no artifact yet (as
  init_working_directory leaves it) and a request whose microservice ids are distinct. With
  repeated ids the source appends several texts to one file, and
  Artifacts.GenerateArtifacts states that case.
- The `root_wd` argument of perform_generate is ignored by the source. The model takes
  only the configured root.
- Generator.Workspace.StoreInputComponentsAsFiles: a staged component's content is the
  oracle serialisation plus a newline. `indent=4, sort_keys=True` is not modelled.

## Behaviour as written

These behaviours of the code are modelled as it is written:

- Staging reads `input_data['MODEL']` unconditionally (line 50). A request without MODEL
  therefore raises a KeyError after the DMA and MA files have been written, and the
  `if model_content:` test at line 172 is always true whenever it is reached.
- `save_to_file` opens its file in append mode. Two microservices with the same id append
  to one artifact file, and Artifacts.GenerateArtifacts states the resulting content.
- A missing `working_directory` fails at line 128, before the try block, so no traceback
  is logged. The model raises `RootNotConfigured` with the log unchanged.
