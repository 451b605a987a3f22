/**
 * The order of the collaborator calls before packaging, and which artifact files a
 * failing run can have written: an independent account of the rendering loops, proved
 * equal to module Pipeline's.
 */
module Ordering {
  import opened Model
  import opened Pipeline
  import opened Properties

  /** The compiler calls of the deployments loop: one per deployment in mapping order, up to the first that fails. */
  function DeploymentsTrace(deps: seq<(string, Obj)>, cfg: Config, ext: Collaborators): seq<Call>
    decreases |deps|
  {
    if deps == [] then []
    else
      [Compile("ddt", deps[0].1.(id := deps[0].0))]
        + (if DeploymentCompiles(deps[0], cfg, ext) then DeploymentsTrace(deps[1..], cfg, ext) else [])
  }

  /** The calls of the microservices loop: each microservice's own calls in list order, up to the first that fails. */
  function MicroservicesTrace(mss: seq<Obj>, req: Request, cfg: Config, ext: Collaborators): seq<Call>
    decreases |mss|
  {
    if mss == [] then []
    else
      MicroserviceTrace(mss[0], req, ext)
        + (if MicroserviceRenders(mss[0], req, cfg, ext) then MicroservicesTrace(mss[1..], req, cfg, ext) else [])
  }

  /**
   * The calls made before packaging: nothing without a MODEL; else the deployments, then
   * (only if all compiled) the algorithm, then (only if it compiled) the microservices.
   */
  function RenderTrace(req: Request, cfg: Config, ext: Collaborators): seq<Call> {
    if req.model.None? then []
    else
      DeploymentsTrace(req.dma.deployments, cfg, ext)
        + if AllDeploymentsCompile(req.dma.deployments, cfg, ext) then AfterDeploymentsTrace(req, cfg, ext) else []
  }

  predicate AllDeploymentsCompile(deps: seq<(string, Obj)>, cfg: Config, ext: Collaborators) {
    forall i :: 0 <= i < |deps| ==> DeploymentCompiles(deps[i], cfg, ext)
  }

  /** The calls after the deployments: the algorithm, then (only if it compiled) the microservices. */
  function AfterDeploymentsTrace(req: Request, cfg: Config, ext: Collaborators): seq<Call> {
    [Compile("algodt", req.algorithm)]
      + (if AlgorithmCompiles(req, cfg, ext) then MicroservicesTrace(req.microservices, req, cfg, ext) else [])
  }

  lemma {:induction false} DeploymentsCallOrder(st: St, deps: seq<(string, Obj)>, cfg: Config, ext: Collaborators)
    ensures Deployments(st, deps, cfg, ext).st.calls == st.calls + DeploymentsTrace(deps, cfg, ext)
    decreases |deps|
  {
    if deps != [] {
      var (name, content) := deps[0];
      var first := ConvertAndSave(st, "deployment", name, "ddt", content.(id := name), cfg, ext);
      ConvertAndSaveCalls(st, "deployment", name, "ddt", content.(id := name), cfg, ext);
      if first.err.None? {
        DeploymentsCallOrder(first.st, deps[1..], cfg, ext);
      }
    }
  }

  lemma {:induction false} MicroservicesCallOrder(st: St, mss: seq<Obj>, req: Request, cfg: Config,
                                                  ext: Collaborators)
    ensures Microservices(st, mss, req, cfg, ext).st.calls == st.calls + MicroservicesTrace(mss, req, cfg, ext)
    decreases |mss|
  {
    if mss != [] {
      var first := Microservice(st, mss[0], req, cfg, ext);
      MicroserviceCalls(st, mss[0], req, cfg, ext);
      if first.err.None? {
        MicroservicesCallOrder(first.st, mss[1..], req, cfg, ext);
      }
    }
  }

  /** Converting writes the artifact file only when the compiler succeeds. */
  lemma ConvertAndSaveFiles(st: St, kind: string, name: string, slot: string, input: Obj,
                            cfg: Config, ext: Collaborators)
    ensures var r := ConvertAndSave(st, kind, name, slot, input, cfg, ext);
      r.st.files.Keys == st.files.Keys + (if r.err.None? then {ArtifactPath(kind, name)} else {})
  {
  }

  /** The deployment artifacts written by the loop: each one's, up to and without the first that fails. */
  function DeploymentsWritten(deps: seq<(string, Obj)>, cfg: Config, ext: Collaborators): set<string>
    decreases |deps|
  {
    if deps == [] || !DeploymentCompiles(deps[0], cfg, ext) then {}
    else {ArtifactPath("deployment", deps[0].0)} + DeploymentsWritten(deps[1..], cfg, ext)
  }

  /** The microservice artifacts written by the loop: each one's, up to and without the first that fails. */
  function MicroservicesWritten(mss: seq<Obj>, req: Request, cfg: Config, ext: Collaborators): set<string>
    decreases |mss|
  {
    if mss == [] || !MicroserviceRenders(mss[0], req, cfg, ext) then {}
    else {ArtifactPath("microservice", mss[0].id)} + MicroservicesWritten(mss[1..], req, cfg, ext)
  }

  /** The deployments loop creates exactly the files of DeploymentsWritten. */
  lemma {:induction false} DeploymentsFiles(st: St, deps: seq<(string, Obj)>, cfg: Config, ext: Collaborators)
    ensures Deployments(st, deps, cfg, ext).st.files.Keys == st.files.Keys + DeploymentsWritten(deps, cfg, ext)
    decreases |deps|
  {
    if deps != [] {
      var (name, content) := deps[0];
      var first := ConvertAndSave(st, "deployment", name, "ddt", content.(id := name), cfg, ext);
      ConvertAndSaveFiles(st, "deployment", name, "ddt", content.(id := name), cfg, ext);
      ConvertAndSaveCalls(st, "deployment", name, "ddt", content.(id := name), cfg, ext);
      if first.err.None? {
        DeploymentsFiles(first.st, deps[1..], cfg, ext);
      }
    }
  }

  /** One microservice writes its artifact file exactly when it renders, and no other file. */
  lemma MicroserviceFiles(st: St, ms: Obj, req: Request, cfg: Config, ext: Collaborators)
    ensures var r := Microservice(st, ms, req, cfg, ext);
      && (r.err.None? <==> MicroserviceRenders(ms, req, cfg, ext))
      && r.st.files.Keys == st.files.Keys + (if r.err.None? then {ArtifactPath("microservice", ms.id)} else {})
  {
    MicroserviceCalls(st, ms, req, cfg, ext);
    var d := MergeData(st, ms, req, ext);
    if d.step.err.None? {
      var m := MergeModel(d.step.st, d.ms, ms.id, req, ext);
      if m.step.err.None? {
        ConvertAndSaveFiles(m.step.st, "microservice", ms.id, "mdt", m.ms, cfg, ext);
      }
    }
  }

  /** The microservices loop creates exactly the files of MicroservicesWritten. */
  lemma {:induction false} MicroservicesFiles(st: St, mss: seq<Obj>, req: Request, cfg: Config,
                                              ext: Collaborators)
    ensures Microservices(st, mss, req, cfg, ext).st.files.Keys
              == st.files.Keys + MicroservicesWritten(mss, req, cfg, ext)
    decreases |mss|
  {
    if mss != [] {
      var first := Microservice(st, mss[0], req, cfg, ext);
      MicroserviceFiles(st, mss[0], req, cfg, ext);
      if first.err.None? {
        MicroservicesFiles(first.st, mss[1..], req, cfg, ext);
      }
    }
  }

  /**
   * Nothing is written after the first failure: a deployment's file is written only when
   * that deployment and every earlier one compiled.
   */
  lemma {:induction false} DeploymentsWrittenOnlyAfterSuccess(deps: seq<(string, Obj)>, cfg: Config,
                                                              ext: Collaborators, p: string)
    requires p in DeploymentsWritten(deps, cfg, ext)
    ensures exists i :: 0 <= i < |deps| && p == ArtifactPath("deployment", deps[i].0)
              && forall j :: 0 <= j <= i ==> DeploymentCompiles(deps[j], cfg, ext)
    decreases |deps|
  {
    if p != ArtifactPath("deployment", deps[0].0) {
      DeploymentsWrittenOnlyAfterSuccess(deps[1..], cfg, ext, p);
      var i' :| 0 <= i' < |deps[1..]| && p == ArtifactPath("deployment", deps[1..][i'].0)
                && forall j :: 0 <= j <= i' ==> DeploymentCompiles(deps[1..][j], cfg, ext);
      forall j | 0 <= j <= i' + 1 ensures DeploymentCompiles(deps[j], cfg, ext) {
        if j > 0 {
          assert deps[j] == deps[1..][j - 1];
        }
      }
      assert deps[i' + 1] == deps[1..][i'];
    }
  }

  /** A microservice's file is written only when that microservice and every earlier one rendered. */
  lemma {:induction false} MicroservicesWrittenOnlyAfterSuccess(mss: seq<Obj>, req: Request, cfg: Config,
                                                                ext: Collaborators, p: string)
    requires p in MicroservicesWritten(mss, req, cfg, ext)
    ensures exists i :: 0 <= i < |mss| && p == ArtifactPath("microservice", mss[i].id)
              && forall j :: 0 <= j <= i ==> MicroserviceRenders(mss[j], req, cfg, ext)
    decreases |mss|
  {
    if p != ArtifactPath("microservice", mss[0].id) {
      MicroservicesWrittenOnlyAfterSuccess(mss[1..], req, cfg, ext, p);
      var i' :| 0 <= i' < |mss[1..]| && p == ArtifactPath("microservice", mss[1..][i'].id)
                && forall j :: 0 <= j <= i' ==> MicroserviceRenders(mss[1..][j], req, cfg, ext);
      forall j | 0 <= j <= i' + 1 ensures MicroserviceRenders(mss[j], req, cfg, ext) {
        if j > 0 {
          assert mss[j] == mss[1..][j - 1];
        }
      }
      assert mss[i' + 1] == mss[1..][i'];
    }
  }

  /** The calls of the conversion phase, in the order of RenderTrace. */
  lemma ConvertCallOrder(st: St, req: Request, cfg: Config, ext: Collaborators)
    ensures Convert(st, req, cfg, ext).st.calls
              == st.calls + DeploymentsTrace(req.dma.deployments, cfg, ext)
                 + if AllDeploymentsCompile(req.dma.deployments, cfg, ext) then AfterDeploymentsTrace(req, cfg, ext) else []
  {
    var deps := Deployments(st, req.dma.deployments, cfg, ext);
    DeploymentsCallOrder(st, req.dma.deployments, cfg, ext);
    DeploymentsOutcome(st, req.dma.deployments, cfg, ext);
    if deps.err.None? {
      var alg := Algorithm(deps.st, req, cfg, ext);
      ConvertAndSaveCalls(deps.st, "algorithm", req.algorithm.id, "algodt", req.algorithm, cfg, ext);
      if alg.err.None? {
        MicroservicesCallOrder(alg.st, req.microservices, req, cfg, ext);
      }
    }
  }

  /**
   * Step order before packaging: staging calls nothing; every deployment is compiled in
   * mapping order, then the algorithm, then each microservice in list order, and nothing
   * is compiled or rendered after the first failure.
   */
  lemma RenderAllCallOrder(st: St, genWd: string, req: Request, cfg: Config, ext: Collaborators)
    ensures RenderAll(st, genWd, req, cfg, ext).st.calls == st.calls + RenderTrace(req, cfg, ext)
  {
    var staged := Stage(st, req, ext);
    if staged.err.None? {
      ConvertCallOrder(AddLog(AddLog(staged.st, "ADT generation process ID: " + genWd + "\n"),
                              "DMA tuple ID: " + req.dma.id + "\n"), req, cfg, ext);
    }
  }

  /** The artifacts of the conversion phase: the deployments', then the algorithm's and the microservices' only if every deployment compiled and then the algorithm did. */
  function ConvertWritten(req: Request, cfg: Config, ext: Collaborators): set<string> {
    DeploymentsWritten(req.dma.deployments, cfg, ext)
      + if AllDeploymentsCompile(req.dma.deployments, cfg, ext) && AlgorithmCompiles(req, cfg, ext)
        then {ArtifactPath("algorithm", req.algorithm.id)} + MicroservicesWritten(req.microservices, req, cfg, ext)
        else {}
  }

  /** The artifacts written before packaging: none without a MODEL, else those of ConvertWritten. */
  function RenderWritten(req: Request, cfg: Config, ext: Collaborators): set<string> {
    if req.model.None? then {} else ConvertWritten(req, cfg, ext)
  }

  /** The conversion phase creates exactly the files of ConvertWritten. */
  lemma ConvertFiles(st: St, req: Request, cfg: Config, ext: Collaborators)
    ensures Convert(st, req, cfg, ext).st.files.Keys == st.files.Keys + ConvertWritten(req, cfg, ext)
  {
    var deps := Deployments(st, req.dma.deployments, cfg, ext);
    DeploymentsFiles(st, req.dma.deployments, cfg, ext);
    DeploymentsOutcome(st, req.dma.deployments, cfg, ext);
    if deps.err.None? {
      var alg := Algorithm(deps.st, req, cfg, ext);
      ConvertAndSaveFiles(deps.st, "algorithm", req.algorithm.id, "algodt", req.algorithm, cfg, ext);
      ConvertAndSaveCalls(deps.st, "algorithm", req.algorithm.id, "algodt", req.algorithm, cfg, ext);
      if alg.err.None? {
        MicroservicesFiles(alg.st, req.microservices, req, cfg, ext);
      }
    }
  }

  /** Rendering creates the staged files and then exactly the artifacts of RenderWritten. */
  lemma RenderAllFiles(st: St, genWd: string, req: Request, cfg: Config, ext: Collaborators)
    ensures RenderAll(st, genWd, req, cfg, ext).st.files.Keys
              == Stage(st, req, ext).st.files.Keys + RenderWritten(req, cfg, ext)
  {
    var staged := Stage(st, req, ext);
    if staged.err.None? {
      ConvertFiles(AddLog(AddLog(staged.st, "ADT generation process ID: " + genWd + "\n"),
                          "DMA tuple ID: " + req.dma.id + "\n"), req, cfg, ext);
    }
  }

  /**
   * Fail-fast: when staging fails or some component does not render, the call raises; the
   * packaging tool, the validator and the upload are never called and the archive is not
   * touched; the files created are the staged ones and the artifacts of RenderWritten, so
   * after a failing deployment neither the algorithm nor any microservice is written, and
   * after a failing algorithm no microservice is.
   */
  lemma FailFast(st: St, genWd: string, req: Request, cfg: Config, ext: Collaborators)
    requires !AllRender(req, cfg, ext)
    ensures var r := Generate(st, genWd, req, cfg, ext);
      && r.outcome.Raised?
      && RenderingOnly(st, r.st)
      && (cfg.workingDirectory.None? ==> r.st == st)
      && (cfg.workingDirectory.Some? ==>
            r.st.files.Keys == Stage(st, req, ext).st.files.Keys + RenderWritten(req, cfg, ext))
  {
    if cfg.workingDirectory.Some? {
      RenderAllOutcome(st, genWd, req, cfg, ext);
      RenderAllRenderingOnly(st, genWd, req, cfg, ext);
      RenderAllFiles(st, genWd, req, cfg, ext);
      GenerateUnfolds(st, genWd, req, cfg, ext);
    }
  }
}
