/**
 * What the pipeline guarantees, proved about the functions of module Pipeline (and so,
 * through their contracts, about the methods of module Generator).
 */
module Properties {
  import opened Wrappers
  import opened Naming
  import opened Model
  import opened Pipeline

  // ---------------------------------------------------------------------------
  // Append-only log and trace
  // ---------------------------------------------------------------------------

  /** b is a later state of a: the log and the trace only grew, and no file disappeared. */
  predicate Extends(a: St, b: St) {
    a.log <= b.log && a.calls <= b.calls && a.files.Keys <= b.files.Keys
  }

  /** Between a and b only compiler and substitution calls were made and the archive was not touched. */
  predicate RenderingOnly(a: St, b: St) {
    && Extends(a, b)
    && Archive(b) == Archive(a)
    && forall i :: |a.calls| <= i < |b.calls| ==> b.calls[i].Compile? || b.calls[i].Render?
  }

  /** The text of two logs written one after the other is the two texts one after the other. */
  lemma {:induction false} TextAppend(a: seq<string>, b: seq<string>)
    ensures Text(a + b) == Text(a) + Text(b)
    decreases |b|
  {
    if b == [] {
      assert a + b == a;
    } else {
      var n := |b| - 1;
      assert (a + b)[..|a + b| - 1] == a + b[..n];
      TextAppend(a, b[..n]);
    }
  }

  /** A later state's generate.log starts with the earlier state's text: the file only grows. */
  lemma TextGrows(a: St, b: St)
    requires Extends(a, b)
    ensures Text(a.log) <= Text(b.log)
  {
    assert b.log == a.log + b.log[|a.log|..];
    TextAppend(a.log, b.log[|a.log|..]);
  }

  lemma RenderingOnlyTrans(a: St, b: St, c: St)
    requires RenderingOnly(a, b) && RenderingOnly(b, c)
    ensures RenderingOnly(a, c)
  {
    forall i | |a.calls| <= i < |c.calls| ensures c.calls[i].Compile? || c.calls[i].Render? {
      if i < |b.calls| {
        assert c.calls[i] == b.calls[i];
      }
    }
  }

  /** Writes that avoid a path leave it as it was, and writes never remove a file. */
  lemma {:induction false} ApplyWritesFrame(files: map<string, string>, ws: seq<Write>, p: string)
    requires forall k :: 0 <= k < |ws| ==> ws[k].path != p
    ensures files.Keys <= ApplyWrites(files, ws).Keys
    ensures (p in ApplyWrites(files, ws)) == (p in files)
    ensures p in files ==> ApplyWrites(files, ws)[p] == files[p]
    decreases |ws|
  {
    if ws != [] {
      ApplyWritesFrame(files, ws[..|ws| - 1], p);
    }
  }

  /** A joined path lies under its directory. */
  lemma JoinUnder(dir: string, file: string)
    ensures dir + "/" <= Join(dir, file)
  {
    assert Join(dir, file)[..|dir + "/"|] == dir + "/";
  }

  /** Every staged file lies under the inputs directory. */
  lemma StagePlanUnderInputs(req: Request, ext: Collaborators)
    requires req.model.Some?
    ensures forall k :: 0 <= k < |StagePlan(req, ext)| ==> DIR_IN + "/" <= StagePlan(req, ext)[k].path
  {
    var plan := StagePlan(req, ext);
    var ms := ListWrites("MICROSERVICES", req.microservices, ext);
    var ds := ListWrites("DATA", req.data, ext);
    forall k | 0 <= k < |plan| ensures DIR_IN + "/" <= plan[k].path {
      if k == 0 {
        JoinUnder(DIR_IN, "DMA" + "_" + req.dma.id + ".json");
      } else if k == 1 {
        JoinUnder(DIR_IN, "MA" + "_" + req.ma.id + ".json");
      } else if k == 2 {
        JoinUnder(DIR_IN, "MODEL" + "_" + req.model.value.id + ".json");
      } else if k == 3 {
        JoinUnder(DIR_IN, "ALGORITHM" + "_" + req.algorithm.id + ".json");
      } else if k < 4 + |ms| {
        assert plan[k] == ms[k - 4];
        var i := k - 4;
        JoinUnder(DIR_IN, "MICROSERVICES" + "_" + NatToString(i) + "_" + req.microservices[i].id + ".json");
      } else if k < 4 + |ms| + |ds| {
        assert plan[k] == ds[k - 4 - |ms|];
        var i := k - 4 - |ms|;
        JoinUnder(DIR_IN, "DATA" + "_" + NatToString(i) + "_" + req.data[i].id + ".json");
      } else {
        JoinUnder(DIR_IN, "GENERATE.json");
      }
    }
  }

  /** Staging only writes files: the log and the trace are untouched, and so is the archive. */
  lemma StageRenderingOnly(st: St, req: Request, ext: Collaborators)
    ensures var r := Stage(st, req, ext).st;
      && r.log == st.log && r.calls == st.calls
      && st.files.Keys <= r.files.Keys
      && Archive(r) == Archive(st)
  {
    match req.model
    case None =>
      var ws := [SingletonWrite(req, ext, 0).value, SingletonWrite(req, ext, 1).value];
      ApplyWritesFrame(st.files, ws, FILE_OUT);
    case Some(_) =>
      StagePlanUnderInputs(req, ext);
      forall k | 0 <= k < |StagePlan(req, ext)| ensures StagePlan(req, ext)[k].path != FILE_OUT {
        assert StagePlan(req, ext)[k].path[0] == 'i';
      }
      ApplyWritesFrame(st.files, StagePlan(req, ext), FILE_OUT);
  }

  lemma ConvertAndSaveRenderingOnly(st: St, kind: string, name: string, slot: string, input: Obj,
                                    cfg: Config, ext: Collaborators)
    ensures var r := ConvertAndSave(st, kind, name, slot, input, cfg, ext).st;
      && RenderingOnly(st, r)
      && |r.calls| == |st.calls| + 1
      && forall i :: |st.calls| <= i < |r.calls| ==> r.calls[i].Compile?
  {
    assert Join(DIR_OUT, FName(kind, name))[0] == 'c';
    ConvertAndSaveCalls(st, kind, name, slot, input, cfg, ext);
  }

  lemma MicroserviceRenderingOnly(st: St, ms: Obj, req: Request, cfg: Config, ext: Collaborators)
    ensures RenderingOnly(st, Microservice(st, ms, req, cfg, ext).st)
  {
    var d := MergeData(st, ms, req, ext);
    if d.step.err.None? {
      var m := MergeModel(d.step.st, d.ms, ms.id, req, ext);
      RenderingOnlyTrans(st, d.step.st, m.step.st);
      if m.step.err.None? {
        ConvertAndSaveRenderingOnly(m.step.st, "microservice", ms.id, "mdt", m.ms, cfg, ext);
        RenderingOnlyTrans(st, m.step.st, Microservice(st, ms, req, cfg, ext).st);
      }
    }
  }

  /** The deployments loop only grows the log, leaves the archive alone and makes compiler calls only. */
  lemma {:induction false} DeploymentsRenderingOnly(st: St, deps: seq<(string, Obj)>, cfg: Config,
                                                    ext: Collaborators)
    ensures var r := Deployments(st, deps, cfg, ext).st;
      && RenderingOnly(st, r)
      && forall i :: |st.calls| <= i < |r.calls| ==> r.calls[i].Compile?
    decreases |deps|
  {
    if deps != [] {
      var (name, content) := deps[0];
      var first := ConvertAndSave(st, "deployment", name, "ddt", content.(id := name), cfg, ext);
      ConvertAndSaveRenderingOnly(st, "deployment", name, "ddt", content.(id := name), cfg, ext);
      ConvertAndSaveCalls(st, "deployment", name, "ddt", content.(id := name), cfg, ext);
      if first.err.None? {
        var r := Deployments(st, deps, cfg, ext).st;
        DeploymentsRenderingOnly(first.st, deps[1..], cfg, ext);
        RenderingOnlyTrans(st, first.st, r);
        forall i | |st.calls| <= i < |r.calls| ensures r.calls[i].Compile? {
          if i < |first.st.calls| {
            assert r.calls[i] == first.st.calls[i];
          }
        }
      }
    }
  }

  lemma {:induction false} MicroservicesRenderingOnly(st: St, mss: seq<Obj>, req: Request, cfg: Config,
                                                      ext: Collaborators)
    ensures RenderingOnly(st, Microservices(st, mss, req, cfg, ext).st)
    decreases |mss|
  {
    if mss != [] {
      var r := Microservice(st, mss[0], req, cfg, ext);
      MicroserviceRenderingOnly(st, mss[0], req, cfg, ext);
      if r.err.None? {
        MicroservicesRenderingOnly(r.st, mss[1..], req, cfg, ext);
        RenderingOnlyTrans(st, r.st, Microservices(st, mss, req, cfg, ext).st);
      }
    }
  }

  lemma RenderAllRenderingOnly(st: St, genWd: string, req: Request, cfg: Config, ext: Collaborators)
    ensures RenderingOnly(st, RenderAll(st, genWd, req, cfg, ext).st)
  {
    var staged := Stage(st, req, ext);
    StageRenderingOnly(st, req, ext);
    if staged.err.None? {
      var s1 := AddLog(AddLog(staged.st, "ADT generation process ID: " + genWd + "\n"),
                       "DMA tuple ID: " + req.dma.id + "\n");
      RenderingOnlyTrans(st, staged.st, s1);
      var deps := Deployments(s1, req.dma.deployments, cfg, ext);
      DeploymentsRenderingOnly(s1, req.dma.deployments, cfg, ext);
      RenderingOnlyTrans(st, s1, deps.st);
      if deps.err.None? {
        var alg := Algorithm(deps.st, req, cfg, ext);
        ConvertAndSaveRenderingOnly(deps.st, "algorithm", req.algorithm.id, "algodt", req.algorithm, cfg, ext);
        RenderingOnlyTrans(st, deps.st, alg.st);
        if alg.err.None? {
          MicroservicesRenderingOnly(alg.st, req.microservices, req, cfg, ext);
          RenderingOnlyTrans(st, alg.st, RenderAll(st, genWd, req, cfg, ext).st);
        }
      }
    }
  }

  // ---------------------------------------------------------------------------
  // Which inputs render: an independent account of every compiler input
  // ---------------------------------------------------------------------------

  /** A deployment compiles: it is given to the `ddt` template with its `id` set to its key. */
  predicate DeploymentCompiles(d: (string, Obj), cfg: Config, ext: Collaborators) {
    ext.compile(Template(cfg, "ddt"), d.1.(id := d.0)).Ok?
  }

  /** The algorithm compiles with the `algodt` template, as it is. */
  predicate AlgorithmCompiles(req: Request, cfg: Config, ext: Collaborators) {
    ext.compile(Template(cfg, "algodt"), req.algorithm).Ok?
  }

  /** The microservice after the data step: substituted with its data item, or unchanged when it has none. */
  function AfterData(ms: Obj, req: Request, ext: Collaborators): Result<Obj, Error> {
    match DataFor(ms, req)
    case None => Ok(ms)
    case Some(d) => ext.substitute(ms, d)
  }

  /**
   * The microservice that is given to the compiler: the result of the data step,
   * substituted with the model when there is one.
   */
  function MergedInput(ms: Obj, req: Request, ext: Collaborators): Result<Obj, Error> {
    match AfterData(ms, req, ext)
    case Fail(e) => Fail(e)
    case Ok(m1) =>
      match req.model
      case None => Ok(m1)
      case Some(model) => ext.substitute(m1, model)
  }

  /** The data substitution call a microservice makes, if any. */
  function DataCalls(ms: Obj, req: Request): seq<Call> {
    match DataFor(ms, req)
    case None => []
    case Some(d) => [Render(ms, d, FromData)]
  }

  /** The model substitution call made on the result m1 of the data step, if any. */
  function ModelCalls(m1: Obj, req: Request): seq<Call> {
    match req.model
    case None => []
    case Some(m) => [Render(m1, m, FromModel)]
  }

  /** The calls one microservice makes: the data substitution, the model substitution, the compile, each only if the previous succeeded. */
  function MicroserviceTrace(ms: Obj, req: Request, ext: Collaborators): seq<Call> {
    DataCalls(ms, req)
      + match AfterData(ms, req, ext)
        case Fail(_) => []
        case Ok(m1) =>
          ModelCalls(m1, req)
            + match MergedInput(ms, req, ext)
              case Fail(_) => []
              case Ok(x) => [Compile("mdt", x)]
  }

  lemma ConvertAndSaveCalls(st: St, kind: string, name: string, slot: string, input: Obj,
                            cfg: Config, ext: Collaborators)
    ensures var r := ConvertAndSave(st, kind, name, slot, input, cfg, ext);
      && r.st.calls == st.calls + [Compile(slot, input)]
      && (r.err.None? <==> ext.compile(Template(cfg, slot), input).Ok?)
      && (r.err.Some? ==> r.err == Some(ext.compile(Template(cfg, slot), input).error))
      && r.st.files == if r.err.None?
           then st.files[ArtifactPath(kind, name) := Contents(st.files, ArtifactPath(kind, name))
                                                      + ext.compile(Template(cfg, slot), input).value + "\n"]
           else st.files
  {
  }

  lemma MicroserviceCalls(st: St, ms: Obj, req: Request, cfg: Config, ext: Collaborators)
    ensures var r := Microservice(st, ms, req, cfg, ext);
      && r.st.calls == st.calls + MicroserviceTrace(ms, req, ext)
      && (r.err.None? <==> MicroserviceRenders(ms, req, cfg, ext))
      && (MergedInput(ms, req, ext).Fail? ==> r.err == Some(MergedInput(ms, req, ext).error))
      && (r.err.None? ==> Join(DIR_OUT, FName("microservice", ms.id)) in r.st.files)
  {
    var d := MergeData(st, ms, req, ext);
    assert d.step.st.calls == st.calls + DataCalls(ms, req);
    assert d.step.err.None? <==> AfterData(ms, req, ext).Ok?;
    if d.step.err.None? {
      assert d.ms == AfterData(ms, req, ext).value;
      var m := MergeModel(d.step.st, d.ms, ms.id, req, ext);
      assert m.step.st.calls == d.step.st.calls + ModelCalls(d.ms, req);
      assert m.step.err.None? <==> MergedInput(ms, req, ext).Ok?;
      if m.step.err.None? {
        assert m.ms == MergedInput(ms, req, ext).value;
        ConvertAndSaveCalls(m.step.st, "microservice", ms.id, "mdt", m.ms, cfg, ext);
      }
    }
  }

  /** A microservice renders: both substitutions succeed and the merged descriptor compiles with `mdt`. */
  predicate MicroserviceRenders(ms: Obj, req: Request, cfg: Config, ext: Collaborators) {
    MergedInput(ms, req, ext).Ok? && ext.compile(Template(cfg, "mdt"), MergedInput(ms, req, ext).value).Ok?
  }

  /** Everything before packaging succeeds: the request has a MODEL and every component renders. */
  predicate AllRender(req: Request, cfg: Config, ext: Collaborators) {
    && req.model.Some?
    && (forall i :: 0 <= i < |req.dma.deployments| ==> DeploymentCompiles(req.dma.deployments[i], cfg, ext))
    && AlgorithmCompiles(req, cfg, ext)
    && (forall i :: 0 <= i < |req.microservices| ==> MicroserviceRenders(req.microservices[i], req, cfg, ext))
  }

  /** The calls made from a to b. */
  function NewCalls(a: St, b: St): seq<Call>
    requires a.calls <= b.calls
  {
    b.calls[|a.calls|..]
  }

  /**
   * Merge selection and order for one microservice: the data substitution is made exactly
   * when DataFor names an item (the first DATA item with the mapped id), with the
   * microservice itself as template; no data substitution follows a model substitution; the
   * model substitution works on the result of the data step; the compiler gets MergedInput,
   * and nothing is compiled when a substitution fails; on success the result is saved under
   * the id read before substitution.
   */
  lemma MicroserviceMerge(st: St, ms: Obj, req: Request, cfg: Config, ext: Collaborators)
    ensures var r := Microservice(st, ms, req, cfg, ext);
      && st.calls <= r.st.calls
      && var c := NewCalls(st, r.st);
      && MergeOrder(c, ms, req, ext)
      && (MergedInput(ms, req, ext).Fail? ==> r.err == Some(MergedInput(ms, req, ext).error))
      && (r.err.None? <==> MicroserviceRenders(ms, req, cfg, ext))
      && (r.err.None? ==> Join(DIR_OUT, FName("microservice", ms.id)) in r.st.files)
  {
    var r := Microservice(st, ms, req, cfg, ext);
    MicroserviceCalls(st, ms, req, cfg, ext);
    assert NewCalls(st, r.st) == MicroserviceTrace(ms, req, ext);
    TraceMergeOrder(ms, req, ext);
  }

  /** The merge order, stated over the calls c one microservice made. */
  predicate MergeOrder(c: seq<Call>, ms: Obj, req: Request, ext: Collaborators) {
    && (DataFor(ms, req).Some? ==> |c| > 0 && c[0] == Render(ms, DataFor(ms, req).value, FromData))
    && (DataFor(ms, req).None? ==> forall i :: 0 <= i < |c| ==> !(c[i].Render? && c[i].from == FromData))
    && (forall i, j ::
          (0 <= i < |c| && 0 <= j < |c| && c[i].Render? && c[j].Render?
           && c[i].from == FromModel && c[j].from == FromData) ==> j < i)
    && (AfterData(ms, req, ext).Ok? && req.model.Some? ==>
          exists i :: 0 <= i < |c| && c[i] == Render(AfterData(ms, req, ext).value, req.model.value, FromModel))
    && (MergedInput(ms, req, ext).Fail? ==> forall i :: 0 <= i < |c| ==> !c[i].Compile?)
    && (MergedInput(ms, req, ext).Ok? ==>
          |c| > 0 && c[|c| - 1] == Compile("mdt", MergedInput(ms, req, ext).value))
  }

  lemma TraceMergeOrder(ms: Obj, req: Request, ext: Collaborators)
    ensures MergeOrder(MicroserviceTrace(ms, req, ext), ms, req, ext)
  {
    var c := MicroserviceTrace(ms, req, ext);
    var dc := DataCalls(ms, req);
    if AfterData(ms, req, ext).Ok? && req.model.Some? {
      assert c[|dc|] == Render(AfterData(ms, req, ext).value, req.model.value, FromModel);
    }
  }

  /** The artifact path of a component. */
  function ArtifactPath(kind: string, name: string): string {
    Join(DIR_OUT, FName(kind, name))
  }

  /** Every artifact a successful run must have written: each deployment, the algorithm, each microservice. */
  predicate HasArtifacts(files: map<string, string>, req: Request) {
    && (forall i :: 0 <= i < |req.dma.deployments| ==> ArtifactPath("deployment", req.dma.deployments[i].0) in files)
    && ArtifactPath("algorithm", req.algorithm.id) in files
    && (forall i :: 0 <= i < |req.microservices| ==> ArtifactPath("microservice", req.microservices[i].id) in files)
  }

  /** The deployments loop succeeds exactly when every deployment compiles, and then each has its file. */
  lemma {:induction false} DeploymentsOutcome(st: St, deps: seq<(string, Obj)>, cfg: Config, ext: Collaborators)
    ensures var r := Deployments(st, deps, cfg, ext);
      && (r.err.None? <==> forall i :: 0 <= i < |deps| ==> DeploymentCompiles(deps[i], cfg, ext))
      && (r.err.None? ==> forall i :: 0 <= i < |deps| ==> ArtifactPath("deployment", deps[i].0) in r.st.files)
    decreases |deps|
  {
    if deps != [] {
      var (name, content) := deps[0];
      var first := ConvertAndSave(st, "deployment", name, "ddt", content.(id := name), cfg, ext);
      ConvertAndSaveCalls(st, "deployment", name, "ddt", content.(id := name), cfg, ext);
      if first.err.None? {
        var rest := Deployments(first.st, deps[1..], cfg, ext);
        DeploymentsOutcome(first.st, deps[1..], cfg, ext);
        DeploymentsRenderingOnly(first.st, deps[1..], cfg, ext);
        forall i | 1 <= i < |deps| ensures deps[i] == deps[1..][i - 1] { }
      }
    }
  }

  /** The microservices loop succeeds exactly when every microservice renders, and then each has its file. */
  lemma {:induction false} MicroservicesOutcome(st: St, mss: seq<Obj>, req: Request, cfg: Config,
                                                ext: Collaborators)
    ensures var r := Microservices(st, mss, req, cfg, ext);
      && (r.err.None? <==> forall i :: 0 <= i < |mss| ==> MicroserviceRenders(mss[i], req, cfg, ext))
      && (r.err.None? ==> forall i :: 0 <= i < |mss| ==> ArtifactPath("microservice", mss[i].id) in r.st.files)
    decreases |mss|
  {
    if mss != [] {
      var first := Microservice(st, mss[0], req, cfg, ext);
      MicroserviceCalls(st, mss[0], req, cfg, ext);
      if first.err.None? {
        MicroservicesOutcome(first.st, mss[1..], req, cfg, ext);
        MicroservicesRenderingOnly(first.st, mss[1..], req, cfg, ext);
        forall i | 1 <= i < |mss| ensures mss[i] == mss[1..][i - 1] { }
      }
    }
  }

  /**
   * Everything before packaging succeeds exactly when the request has a MODEL and every
   * component renders; then every artifact is on disk under its deterministic name.
   */
  lemma RenderAllOutcome(st: St, genWd: string, req: Request, cfg: Config, ext: Collaborators)
    ensures var r := RenderAll(st, genWd, req, cfg, ext);
      && (r.err.None? <==> AllRender(req, cfg, ext))
      && (r.err.None? ==> HasArtifacts(r.st.files, req))
  {
    var staged := Stage(st, req, ext);
    if staged.err.None? {
      var s1 := AddLog(AddLog(staged.st, "ADT generation process ID: " + genWd + "\n"),
                       "DMA tuple ID: " + req.dma.id + "\n");
      var deps := Deployments(s1, req.dma.deployments, cfg, ext);
      DeploymentsOutcome(s1, req.dma.deployments, cfg, ext);
      if deps.err.None? {
        var alg := Algorithm(deps.st, req, cfg, ext);
        ConvertAndSaveCalls(deps.st, "algorithm", req.algorithm.id, "algodt", req.algorithm, cfg, ext);
        ConvertAndSaveRenderingOnly(deps.st, "algorithm", req.algorithm.id, "algodt", req.algorithm, cfg, ext);
        if alg.err.None? {
          MicroservicesOutcome(alg.st, req.microservices, req, cfg, ext);
          MicroservicesRenderingOnly(alg.st, req.microservices, req, cfg, ext);
        }
      }
    }
  }

  // ---------------------------------------------------------------------------
  // Packaging, validation and upload
  // ---------------------------------------------------------------------------

  /** The last chunk written to the log is t. */
  predicate EndsWith(log: seq<string>, t: string) {
    |log| > 0 && log[|log| - 1] == t
  }

  /** The archive the validator is given: the one the packaging tool wrote, else whatever was there before. */
  function PackagedArchive(st: St, req: Request, cfg: Config, ext: Collaborators): Option<string>
    requires !ToolMissing(cfg)
  {
    var p := ext.package(cfg.csarTool.value, FName("algorithm", req.algorithm.id), st.files);
    if p.archive.Some? then p.archive else Archive(st)
  }

  lemma CreateCsarOutcome(st: St, fullWd: string, algFname: string, cfg: Config, ext: Collaborators)
    ensures var r := CreateCsar(st, fullWd, algFname, cfg, ext);
      && Extends(st, r.st)
      && (ToolMissing(cfg) ==> r == Step(st, Some(ToolNotConfigured)))
      && (!ToolMissing(cfg) ==>
            var p := ext.package(cfg.csarTool.value, algFname, st.files);
            && r.err.None?
            && r.st.calls == st.calls + [Package(cfg.csarTool.value, algFname)]
            && Archive(r.st) == (if p.archive.Some? then p.archive else Archive(st)))
  {
  }

  lemma ValidateCsarOutcome(st: St, ext: Collaborators)
    ensures var r := ValidateCsar(st, ext);
      && Extends(st, r.st)
      && r.st.calls == st.calls + [Validate(Archive(st))]
      && (r.err.None? <==> ext.validate(Archive(st)) == Valid)
      && (ext.validate(Archive(st)).MultiError? ==>
            r.err == Some(ValidationFailed) && EndsWith(r.st.log, ext.validate(Archive(st)).text))
  {
  }

  lemma UploadOutcome(st: St, genWd: string, ext: Collaborators)
    ensures var r := UploadToS3(st, genWd, ext);
      && Extends(st, r.st)
      && r.st.calls == st.calls + [Upload(genWd)]
      && (r.err.None? <==> ext.upload(genWd).None?)
  {
  }

  /** Validation then, only when it passed and uploading is enabled, the upload. */
  lemma PublishOutcome(st: St, genWd: string, cfg: Config, ext: Collaborators)
    ensures var r := Publish(st, genWd, cfg, ext);
      var a := Archive(st);
      && Extends(st, r.st)
      && r.st.calls == st.calls + [Validate(a)]
           + (if cfg.uploadEnabled && ext.validate(a) == Valid then [Upload(genWd)] else [])
      && (r.err.None? <==> ext.validate(a) == Valid && (cfg.uploadEnabled ==> ext.upload(genWd).None?))
      && (ext.validate(a).MultiError? ==>
            r.err == Some(ValidationFailed) && EndsWith(r.st.log, ext.validate(a).text))
  {
    var valid := ValidateCsar(st, ext);
    ValidateCsarOutcome(st, ext);
    if valid.err.None? && cfg.uploadEnabled {
      UploadOutcome(AddLog(valid.st, "Validating csar zip finished.\n"), genWd, ext);
    }
  }

  /**
   * After rendering: nothing is run when no tool is configured; otherwise the tool is run
   * once with the algorithm's file as entry point, the validator is called once on the
   * archive, and the upload is made exactly when it is enabled and the validator accepted
   * the archive. A MultiError leaves its text at the end of the log.
   */
  lemma AssembleOutcome(st: St, fullWd: string, genWd: string, req: Request, cfg: Config,
                        ext: Collaborators)
    ensures var r := Assemble(st, fullWd, genWd, req, cfg, ext);
      && Extends(st, r.st)
      && (ToolMissing(cfg) ==> r.err == Some(ToolNotConfigured) && r.st.calls == st.calls)
      && (!ToolMissing(cfg) ==>
            var a := PackagedArchive(st, req, cfg, ext);
            && r.st.calls == st.calls
                 + [Package(cfg.csarTool.value, FName("algorithm", req.algorithm.id)), Validate(a)]
                 + (if cfg.uploadEnabled && ext.validate(a) == Valid then [Upload(genWd)] else [])
            && (r.err.None? <==> ext.validate(a) == Valid && (cfg.uploadEnabled ==> ext.upload(genWd).None?))
            && (ext.validate(a).MultiError? ==>
                  r.err == Some(ValidationFailed) && EndsWith(r.st.log, ext.validate(a).text)))
  {
    var s2 := AddLog(st, "Creating csar zip starts...\n");
    var csar := CreateCsar(s2, fullWd, FName("algorithm", req.algorithm.id), cfg, ext);
    CreateCsarOutcome(s2, fullWd, FName("algorithm", req.algorithm.id), cfg, ext);
    if !ToolMissing(cfg) {
      var s3 := AddLog(AddLog(csar.st, "Creating csar zip finished.\n"),
                       "Validating csar zip (with micadoparser) starts...\n");
      assert Archive(s3) == PackagedArchive(st, req, cfg, ext);
      PublishOutcome(s3, genWd, cfg, ext);
    }
  }

  // ---------------------------------------------------------------------------
  // perform_generate
  // ---------------------------------------------------------------------------

  /**
   * The run log only grows (so does the trace, and no file disappears), and an exception
   * leaves its traceback, after a newline, at the end of the log.
   */
  lemma GenerateAppendOnly(st: St, genWd: string, req: Request, cfg: Config, ext: Collaborators)
    ensures var r := Generate(st, genWd, req, cfg, ext);
      && Extends(st, r.st)
      && (cfg.workingDirectory.Some? && r.outcome.Raised? ==>
            EndsWith(r.st.log, "\n" + ext.traceback(r.outcome.error)))
  {
    if cfg.workingDirectory.Some? {
      var fullWd := Join(cfg.workingDirectory.value, genWd);
      var rendered := RenderAll(st, genWd, req, cfg, ext);
      GenerateUnfolds(st, genWd, req, cfg, ext);
      RenderAllRenderingOnly(st, genWd, req, cfg, ext);
      if rendered.err.None? {
        AssembleExtends(rendered.st, fullWd, genWd, req, cfg, ext);
      }
    }
  }

  lemma AssembleExtends(st: St, fullWd: string, genWd: string, req: Request, cfg: Config, ext: Collaborators)
    ensures Extends(st, Assemble(st, fullWd, genWd, req, cfg, ext).st)
  {
    AssembleOutcome(st, fullWd, genWd, req, cfg, ext);
  }

  /** The calls made after rendering, as AssembleOutcome describes them. */
  function AssembleCalls(st: St, genWd: string, req: Request, cfg: Config, ext: Collaborators): seq<Call> {
    if ToolMissing(cfg) then []
    else
      var a := PackagedArchive(st, req, cfg, ext);
      [Package(cfg.csarTool.value, FName("algorithm", req.algorithm.id)), Validate(a)]
        + (if cfg.uploadEnabled && ext.validate(a) == Valid then [Upload(genWd)] else [])
  }

  /** The trace of a run: rendering calls only, then (if rendering succeeded) the assembly calls. */
  lemma GenerateCalls(st: St, genWd: string, req: Request, cfg: Config, ext: Collaborators)
    requires cfg.workingDirectory.Some?
    ensures var rendered := RenderAll(st, genWd, req, cfg, ext);
      var r := Generate(st, genWd, req, cfg, ext);
      && RenderingOnly(st, rendered.st)
      && st.calls <= r.st.calls
      && r.st.calls == rendered.st.calls
           + (if rendered.err.None? then AssembleCalls(rendered.st, genWd, req, cfg, ext) else [])
  {
    var fullWd := Join(cfg.workingDirectory.value, genWd);
    var rendered := RenderAll(st, genWd, req, cfg, ext);
    RenderAllRenderingOnly(st, genWd, req, cfg, ext);
    GenerateUnfolds(st, genWd, req, cfg, ext);
    if rendered.err.None? {
      AssembleTrace(rendered.st, fullWd, genWd, req, cfg, ext);
    }
  }

  /** The trace after rendering is AssembleCalls. */
  lemma AssembleTrace(st: St, fullWd: string, genWd: string, req: Request, cfg: Config, ext: Collaborators)
    ensures Assemble(st, fullWd, genWd, req, cfg, ext).st.calls == st.calls + AssembleCalls(st, genWd, req, cfg, ext)
  {
    var s2 := AddLog(st, "Creating csar zip starts...\n");
    var csar := CreateCsar(s2, fullWd, FName("algorithm", req.algorithm.id), cfg, ext);
    CreateCsarOutcome(s2, fullWd, FName("algorithm", req.algorithm.id), cfg, ext);
    if !ToolMissing(cfg) {
      var s3 := AddLog(AddLog(csar.st, "Creating csar zip finished.\n"),
                       "Validating csar zip (with micadoparser) starts...\n");
      assert Archive(s3) == PackagedArchive(st, req, cfg, ext);
      PublishOutcome(s3, genWd, cfg, ext);
    }
  }

  /** A configured run is its body, followed on an exception by the traceback in the log. */
  lemma GenerateUnfolds(st: St, genWd: string, req: Request, cfg: Config, ext: Collaborators)
    requires cfg.workingDirectory.Some?
    ensures var fullWd := Join(cfg.workingDirectory.value, genWd);
      var rendered := RenderAll(st, genWd, req, cfg, ext);
      var body := if rendered.err.Some? then rendered else Assemble(rendered.st, fullWd, genWd, req, cfg, ext);
      var r := Generate(st, genWd, req, cfg, ext);
      && r.st.calls == body.st.calls
      && r.st.files == body.st.files
      && (body.err.Some? ==> r.outcome == Raised(body.err.value) && r.st.log == body.st.log + ["\n" + ext.traceback(body.err.value)])
      && (body.err.None? ==> r.outcome == Completed(true, SUCCESS_MESSAGE) && r.st.log == body.st.log)
  {
  }

  /** An upload is the last call, right after a validation that passed, and only when enabled. */
  predicate UploadsGated(c: seq<Call>, genWd: string, cfg: Config, ext: Collaborators) {
    && (forall i :: 0 <= i < |c| && c[i].Upload? ==>
          && cfg.uploadEnabled && i == |c| - 1 && i > 0 && c[i] == Upload(genWd)
          && c[i - 1].Validate? && ext.validate(c[i - 1].archive) == Valid)
    && (forall j :: 0 <= j < |c| && c[j].Validate? && ext.validate(c[j].archive) == Valid && cfg.uploadEnabled ==>
          j == |c| - 2 && c[j + 1] == Upload(genWd))
  }

  lemma TraceGated(rc: seq<Call>, tail: seq<Call>, genWd: string, cfg: Config, ext: Collaborators,
                   tool: string, entry: string, a: Option<string>)
    requires forall i :: 0 <= i < |rc| ==> rc[i].Compile? || rc[i].Render?
    requires tail == [] || tail == [Package(tool, entry), Validate(a)]
               + (if cfg.uploadEnabled && ext.validate(a) == Valid then [Upload(genWd)] else [])
    ensures UploadsGated(rc + tail, genWd, cfg, ext)
  {
    var c := rc + tail;
    assert forall i :: 0 <= i < |rc| ==> c[i] == rc[i];
  }

  /**
   * Upload gating, in both directions: an upload call is made exactly when uploading is
   * enabled and the validator accepted the archive; it is then the last call, comes
   * right after that validation, and targets the workspace's own name.
   */
  lemma UploadGating(st: St, genWd: string, req: Request, cfg: Config, ext: Collaborators)
    ensures var r := Generate(st, genWd, req, cfg, ext);
      st.calls <= r.st.calls && UploadsGated(NewCalls(st, r.st), genWd, cfg, ext)
  {
    if cfg.workingDirectory.None? {
      assert NewCalls(st, Generate(st, genWd, req, cfg, ext).st) == [];
      return;
    }
    GenerateCalls(st, genWd, req, cfg, ext);
    var rendered := RenderAll(st, genWd, req, cfg, ext);
    var final := Generate(st, genWd, req, cfg, ext).st.calls;
    var tail := if rendered.err.None? then AssembleCalls(rendered.st, genWd, req, cfg, ext) else [];
    if ToolMissing(cfg) || rendered.err.Some? {
      GatedTrace(st.calls, rendered.st.calls, tail, final, genWd, cfg, ext, "", "", None);
    } else {
      GatedTrace(st.calls, rendered.st.calls, tail, final, genWd, cfg, ext, cfg.csarTool.value,
                 FName("algorithm", req.algorithm.id), PackagedArchive(rendered.st, req, cfg, ext));
    }
  }

  /** A trace made of rendering calls and then possibly the assembly calls has its uploads gated. */
  lemma GatedTrace(before: seq<Call>, mid: seq<Call>, tail: seq<Call>, final: seq<Call>,
                   genWd: string, cfg: Config, ext: Collaborators, tool: string, entry: string, a: Option<string>)
    requires before <= mid && final == mid + tail
    requires forall i :: |before| <= i < |mid| ==> mid[i].Compile? || mid[i].Render?
    requires tail == [] || tail == [Package(tool, entry), Validate(a)]
               + (if cfg.uploadEnabled && ext.validate(a) == Valid then [Upload(genWd)] else [])
    ensures before <= final && UploadsGated(final[|before|..], genWd, cfg, ext)
  {
    SplitTrace(before, mid, tail, final);
    var rc := mid[|before|..];
    assert forall i :: 0 <= i < |rc| ==> rc[i] == mid[|before| + i];
    TraceGated(rc, tail, genWd, cfg, ext, tool, entry, a);
  }

  lemma SplitTrace(before: seq<Call>, mid: seq<Call>, tail: seq<Call>, final: seq<Call>)
    requires before <= mid && final == mid + tail
    ensures before <= final && final[|before|..] == mid[|before|..] + tail
  {
  }

  /**
   * A run completes exactly when the workspace root is configured, every component renders,
   * a packaging tool is configured, the validator accepts the archive and, if enabled, the
   * upload succeeds. A completed run returns `(true, "ADT generated successfully")` and has
   * every artifact on disk under its deterministic name.
   */
  lemma CompletedExactly(st: St, genWd: string, req: Request, cfg: Config, ext: Collaborators)
    ensures var r := Generate(st, genWd, req, cfg, ext);
      && (r.outcome.Completed? <==>
            && cfg.workingDirectory.Some?
            && AllRender(req, cfg, ext)
            && !ToolMissing(cfg)
            && ext.validate(PackagedArchive(RenderAll(st, genWd, req, cfg, ext).st, req, cfg, ext)) == Valid
            && (cfg.uploadEnabled ==> ext.upload(genWd).None?))
      && (r.outcome.Completed? ==>
            r.outcome == Completed(true, SUCCESS_MESSAGE) && HasArtifacts(r.st.files, req))
  {
    if cfg.workingDirectory.Some? {
      var fullWd := Join(cfg.workingDirectory.value, genWd);
      var rendered := RenderAll(st, genWd, req, cfg, ext);
      RenderAllOutcome(st, genWd, req, cfg, ext);
      if rendered.err.None? {
        AssembleOutcome(rendered.st, fullWd, genWd, req, cfg, ext);
      }
    }
  }

  // ---------------------------------------------------------------------------
  // Staging
  // ---------------------------------------------------------------------------

  /** The two characters after `inputs/` that tell the staged component k apart. */
  function FamilyTag(k: nat, nms: nat, nds: nat): (char, char) {
    if k == 0 then ('D', 'M')          // DMA
    else if k == 1 then ('M', 'A')     // MA
    else if k == 2 then ('M', 'O')     // MODEL
    else if k == 3 then ('A', 'L')     // ALGORITHM
    else if k < 4 + nms then ('M', 'I')  // MICROSERVICES
    else if k < 4 + nms + nds then ('D', 'A')  // DATA
    else ('G', 'E')                    // GENERATE.json
  }

  lemma StagedNameTag(component: string, rest: string)
    requires |component| >= 2
    ensures var p := Join(DIR_IN, component + rest); |p| >= 9 && p[7] == component[0] && p[8] == component[1]
  {
  }

  lemma SingletonTag(component: string, id: string)
    requires |component| >= 2
    ensures var p := StagedName(component, id); |p| >= 9 && p[7] == component[0] && p[8] == component[1]
  {
    assert component + "_" + id + ".json" == component + ("_" + id + ".json");
    StagedNameTag(component, "_" + id + ".json");
  }

  lemma IndexedTag(component: string, index: nat, id: string)
    requires |component| >= 2
    ensures var p := IndexedStagedName(component, index, id); |p| >= 9 && p[7] == component[0] && p[8] == component[1]
  {
    var rest := "_" + NatToString(index) + "_" + id + ".json";
    assert component + "_" + NatToString(index) + "_" + id + ".json" == component + rest;
    StagedNameTag(component, rest);
  }

  lemma PlanTag(req: Request, ext: Collaborators, k: nat)
    requires req.model.Some? && k < |StagePlan(req, ext)|
    ensures var path := StagePlan(req, ext)[k].path;
      |path| >= 9 && (path[7], path[8]) ==
        FamilyTag(k, |req.microservices|, |req.data|)
  {
    var plan := StagePlan(req, ext);
    var ms := ListWrites("MICROSERVICES", req.microservices, ext);
    var ds := ListWrites("DATA", req.data, ext);
    if k == 0 {
      SingletonTag("DMA", req.dma.id);
    } else if k == 1 {
      SingletonTag("MA", req.ma.id);
    } else if k == 2 {
      SingletonTag("MODEL", req.model.value.id);
    } else if k == 3 {
      SingletonTag("ALGORITHM", req.algorithm.id);
    } else if k < 4 + |ms| {
      assert plan[k] == ms[k - 4];
      IndexedTag("MICROSERVICES", k - 4, req.microservices[k - 4].id);
    } else if k < 4 + |ms| + |ds| {
      assert plan[k] == ds[k - 4 - |ms|];
      IndexedTag("DATA", k - 4 - |ms|, req.data[k - 4 - |ms|].id);
    } else {
      StagedNameTag("GENERATE", ".json");
    }
  }

  /** No two files staging writes share a name: no staged component overwrites another. */
  lemma StagePlanDistinct(req: Request, ext: Collaborators)
    requires req.model.Some?
    ensures var plan := StagePlan(req, ext);
      forall i, j :: 0 <= i < j < |plan| ==> plan[i].path != plan[j].path
  {
    var plan := StagePlan(req, ext);
    var ms := ListWrites("MICROSERVICES", req.microservices, ext);
    var ds := ListWrites("DATA", req.data, ext);
    forall i, j | 0 <= i < j < |plan| ensures plan[i].path != plan[j].path {
      if 4 <= i && j < 4 + |ms| {
        assert plan[i] == ms[i - 4] && plan[j] == ms[j - 4];
        IndexedStagedNamesDistinct("MICROSERVICES", i - 4, j - 4,
                                   req.microservices[i - 4].id, req.microservices[j - 4].id);
      } else if 4 + |ms| <= i && j < 4 + |ms| + |ds| {
        assert plan[i] == ds[i - 4 - |ms|] && plan[j] == ds[j - 4 - |ms|];
        IndexedStagedNamesDistinct("DATA", i - 4 - |ms|, j - 4 - |ms|,
                                   req.data[i - 4 - |ms|].id, req.data[j - 4 - |ms|].id);
      } else {
        PlanTag(req, ext, i);
        PlanTag(req, ext, j);
      }
    }
  }

  /** A write that no later write replaces is what its file holds at the end. */
  lemma {:induction false} ApplyWritesKeeps(files: map<string, string>, ws: seq<Write>, k: nat)
    requires k < |ws|
    requires forall j :: k < j < |ws| ==> ws[j].path != ws[k].path
    ensures ws[k].path in ApplyWrites(files, ws) && ApplyWrites(files, ws)[ws[k].path] == ws[k].content
    decreases |ws|
  {
    if k < |ws| - 1 {
      ApplyWritesKeeps(files, ws[..|ws| - 1], k);
    }
  }

  /**
   * Staging writes every component under its deterministic name with its serialised
   * content, none overwriting another; without a MODEL it stops with a KeyError after
   * the DMA and MA files.
   */
  lemma StagedFilesIntact(st: St, req: Request, ext: Collaborators)
    ensures var r := Stage(st, req, ext);
      && (req.model.None? ==>
            && r.err == Some(MissingKey("MODEL"))
            && StagedName("DMA", req.dma.id) in r.st.files
            && StagedName("MA", req.ma.id) in r.st.files
            && r.st.files[StagedName("DMA", req.dma.id)] == ext.dumpDma(req.dma) + "\n"
            && r.st.files[StagedName("MA", req.ma.id)] == ext.dumpObj(req.ma) + "\n")
      && (req.model.Some? ==>
            && r.err.None?
            && forall k :: 0 <= k < |StagePlan(req, ext)| ==>
                 && StagePlan(req, ext)[k].path in r.st.files
                 && r.st.files[StagePlan(req, ext)[k].path] == StagePlan(req, ext)[k].content)
  {
    match req.model
    case None =>
      var ws := [SingletonWrite(req, ext, 0).value, SingletonWrite(req, ext, 1).value];
      assert ws[0].path != ws[1].path by {
        SingletonTag("DMA", req.dma.id);
        SingletonTag("MA", req.ma.id);
      }
      ApplyWritesKeeps(st.files, ws, 0);
      ApplyWritesKeeps(st.files, ws, 1);
    case Some(_) =>
      var plan := StagePlan(req, ext);
      StagePlanDistinct(req, ext);
      forall k | 0 <= k < |plan|
        ensures plan[k].path in ApplyWrites(st.files, plan)
        ensures ApplyWrites(st.files, plan)[plan[k].path] == plan[k].content
      {
        ApplyWritesKeeps(st.files, plan, k);
      }
  }

  /** The staged names, as the generator derives them from each component's identity and position. */
  lemma StagedNames(req: Request, ext: Collaborators)
    requires req.model.Some?
    ensures var plan := StagePlan(req, ext);
      var nms := |req.microservices|;
      && |plan| == 5 + nms + |req.data|
      && plan[0].path == StagedName("DMA", req.dma.id)
      && plan[1].path == StagedName("MA", req.ma.id)
      && plan[2].path == StagedName("MODEL", req.model.value.id)
      && plan[3].path == StagedName("ALGORITHM", req.algorithm.id)
      && (forall i :: 0 <= i < nms ==>
            plan[4 + i].path == IndexedStagedName("MICROSERVICES", i, req.microservices[i].id))
      && (forall i :: 0 <= i < |req.data| ==>
            plan[4 + nms + i].path == IndexedStagedName("DATA", i, req.data[i].id))
      && plan[|plan| - 1] == Write(GENERATE_NAME, ext.dumpRequest(req) + "\n")
  {
  }
}
