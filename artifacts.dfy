/**
 * What the artifact files hold. save_to_file appends the compiled text and a newline, so
 * each phase is described as a sequence of appends, and the final content of a file is
 * what it held before followed by every text appended to it, in order.
 */
module Artifacts {
  import opened Naming
  import opened Model
  import opened Pipeline
  import opened Properties
  import opened Ordering

  /** Appends each write's content to its file, oldest first, as save_to_file does. */
  function AppendAll(files: map<string, string>, ws: seq<Write>): map<string, string>
    decreases |ws|
  {
    if ws == [] then files
    else AppendAll(files[ws[0].path := Contents(files, ws[0].path) + ws[0].content], ws[1..])
  }

  /** The texts the writes append to path p, in order. */
  function AppendedTo(ws: seq<Write>, p: string): string
    decreases |ws|
  {
    if ws == [] then "" else (if ws[0].path == p then ws[0].content else "") + AppendedTo(ws[1..], p)
  }

  /** A file after the appends holds its old content followed by every text appended to it. */
  lemma {:induction false} AppendAllContents(files: map<string, string>, ws: seq<Write>, p: string)
    ensures Contents(AppendAll(files, ws), p) == Contents(files, p) + AppendedTo(ws, p)
    decreases |ws|
  {
    if ws != [] {
      var next := files[ws[0].path := Contents(files, ws[0].path) + ws[0].content];
      AppendAllContents(next, ws[1..], p);
    }
  }

  /** Two runs of appends are one. */
  lemma {:induction false} AppendAllConcat(files: map<string, string>, a: seq<Write>, b: seq<Write>)
    ensures AppendAll(AppendAll(files, a), b) == AppendAll(files, a + b)
    decreases |a|
  {
    if a != [] {
      var next := files[a[0].path := Contents(files, a[0].path) + a[0].content];
      assert (a + b)[0] == a[0] && (a + b)[1..] == a[1..] + b;
      assert AppendAll(files, a + b) == AppendAll(next, a[1..] + b);
      AppendAllConcat(next, a[1..], b);
    } else {
      assert a + b == b;
    }
  }

  /** A single append. */
  lemma AppendOne(files: map<string, string>, w: Write)
    ensures AppendAll(files, [w]) == files[w.path := Contents(files, w.path) + w.content]
  {
    assert [w][1..] == [];
  }

  /** A path that only one write targets receives exactly that write's text. */
  lemma {:induction false} AppendedToUnique(ws: seq<Write>, i: nat)
    requires i < |ws|
    requires forall j :: 0 <= j < |ws| && j != i ==> ws[j].path != ws[i].path
    ensures AppendedTo(ws, ws[i].path) == ws[i].content
    decreases |ws|
  {
    if i == 0 {
      AppendedToNone(ws[1..], ws[0].path);
    } else {
      assert ws[0].path != ws[i].path;
      AppendedToUnique(ws[1..], i - 1);
    }
  }

  /** A path no write targets receives nothing. */
  lemma {:induction false} AppendedToNone(ws: seq<Write>, p: string)
    requires forall j :: 0 <= j < |ws| ==> ws[j].path != p
    ensures AppendedTo(ws, p) == ""
    decreases |ws|
  {
    if ws != [] {
      AppendedToNone(ws[1..], p);
    }
  }

  // ---------------------------------------------------------------------------
  // The texts saved by each phase
  // ---------------------------------------------------------------------------

  /** The compiled text of a deployment that compiles. */
  function DeploymentText(d: (string, Obj), cfg: Config, ext: Collaborators): string
    requires DeploymentCompiles(d, cfg, ext)
  {
    ext.compile(Template(cfg, "ddt"), d.1.(id := d.0)).value
  }

  /** The compiled text of an algorithm that compiles. */
  function AlgorithmText(req: Request, cfg: Config, ext: Collaborators): string
    requires AlgorithmCompiles(req, cfg, ext)
  {
    ext.compile(Template(cfg, "algodt"), req.algorithm).value
  }

  /** The compiled text of a microservice that renders: its merged descriptor compiled with `mdt`. */
  function MicroserviceText(ms: Obj, req: Request, cfg: Config, ext: Collaborators): string
    requires MicroserviceRenders(ms, req, cfg, ext)
  {
    ext.compile(Template(cfg, "mdt"), MergedInput(ms, req, ext).value).value
  }

  /** The saves of the deployments loop: each compiled text and a newline, up to the first failure. */
  function DeploymentsSaves(deps: seq<(string, Obj)>, cfg: Config, ext: Collaborators): seq<Write>
    decreases |deps|
  {
    if deps == [] || !DeploymentCompiles(deps[0], cfg, ext) then []
    else [Write(ArtifactPath("deployment", deps[0].0), DeploymentText(deps[0], cfg, ext) + "\n")]
           + DeploymentsSaves(deps[1..], cfg, ext)
  }

  /** The saves of the microservices loop: each compiled text and a newline, up to the first failure. */
  function MicroservicesSaves(mss: seq<Obj>, req: Request, cfg: Config, ext: Collaborators): seq<Write>
    decreases |mss|
  {
    if mss == [] || !MicroserviceRenders(mss[0], req, cfg, ext) then []
    else [Write(ArtifactPath("microservice", mss[0].id), MicroserviceText(mss[0], req, cfg, ext) + "\n")]
           + MicroservicesSaves(mss[1..], req, cfg, ext)
  }

  /** The saves of the conversion phase: the deployments, then the algorithm and the microservices only if all of those compiled. */
  function ConvertSaves(req: Request, cfg: Config, ext: Collaborators): seq<Write> {
    DeploymentsSaves(req.dma.deployments, cfg, ext)
      + if AllDeploymentsCompile(req.dma.deployments, cfg, ext) then AfterDeploymentsSaves(req, cfg, ext) else []
  }

  // ---------------------------------------------------------------------------
  // The phases append exactly those texts
  // ---------------------------------------------------------------------------

  /** The deployments loop appends each compiled deployment to its artifact, in mapping order. */
  lemma {:induction false} DeploymentsSaved(st: St, deps: seq<(string, Obj)>, cfg: Config, ext: Collaborators)
    ensures Deployments(st, deps, cfg, ext).st.files == AppendAll(st.files, DeploymentsSaves(deps, cfg, ext))
    decreases |deps|
  {
    if deps != [] {
      var (name, content) := deps[0];
      var first := ConvertAndSave(st, "deployment", name, "ddt", content.(id := name), cfg, ext);
      ConvertAndSaveCalls(st, "deployment", name, "ddt", content.(id := name), cfg, ext);
      if first.err.None? {
        DeploymentsSaved(first.st, deps[1..], cfg, ext);
        var p := ArtifactPath("deployment", name);
        assert Contents(st.files, p) + DeploymentText(deps[0], cfg, ext) + "\n"
            == Contents(st.files, p) + (DeploymentText(deps[0], cfg, ext) + "\n");
      }
    }
  }

  /** One microservice appends its compiled text to its artifact when it renders, and writes nothing otherwise. */
  lemma MicroserviceSaved(st: St, ms: Obj, req: Request, cfg: Config, ext: Collaborators)
    ensures Microservice(st, ms, req, cfg, ext).st.files
              == AppendAll(st.files, MicroservicesSaves([ms], req, cfg, ext))
  {
    MicroserviceCalls(st, ms, req, cfg, ext);
    var d := MergeData(st, ms, req, ext);
    var p := ArtifactPath("microservice", ms.id);
    assert [ms][1..] == [];
    if d.step.err.None? {
      var m := MergeModel(d.step.st, d.ms, ms.id, req, ext);
      if m.step.err.None? {
        ConvertAndSaveCalls(m.step.st, "microservice", ms.id, "mdt", m.ms, cfg, ext);
        if MicroserviceRenders(ms, req, cfg, ext) {
          assert Contents(st.files, p) + MicroserviceText(ms, req, cfg, ext) + "\n"
              == Contents(st.files, p) + (MicroserviceText(ms, req, cfg, ext) + "\n");
        }
      }
    }
  }

  /** The microservices loop appends each compiled microservice to its artifact, in list order. */
  lemma {:induction false} MicroservicesSaved(st: St, mss: seq<Obj>, req: Request, cfg: Config,
                                              ext: Collaborators)
    ensures Microservices(st, mss, req, cfg, ext).st.files
              == AppendAll(st.files, MicroservicesSaves(mss, req, cfg, ext))
    decreases |mss|
  {
    if mss != [] {
      var first := Microservice(st, mss[0], req, cfg, ext);
      MicroserviceSaved(st, mss[0], req, cfg, ext);
      MicroserviceFiles(st, mss[0], req, cfg, ext);
      assert [mss[0]][1..] == [];
      if first.err.None? {
        MicroservicesSaved(first.st, mss[1..], req, cfg, ext);
        AppendAllConcat(st.files, MicroservicesSaves([mss[0]], req, cfg, ext), MicroservicesSaves(mss[1..], req, cfg, ext));
      }
    }
  }

  /** The conversion phase appends exactly the texts of ConvertSaves. */
  lemma ConvertSaved(st: St, req: Request, cfg: Config, ext: Collaborators)
    ensures Convert(st, req, cfg, ext).st.files == AppendAll(st.files, ConvertSaves(req, cfg, ext))
  {
    var deps := Deployments(st, req.dma.deployments, cfg, ext);
    var ds := DeploymentsSaves(req.dma.deployments, cfg, ext);
    DeploymentsSaved(st, req.dma.deployments, cfg, ext);
    DeploymentsOutcome(st, req.dma.deployments, cfg, ext);
    if deps.err.None? {
      assert AllDeploymentsCompile(req.dma.deployments, cfg, ext);
      AfterDeploymentsSaved(deps.st, st.files, ds, req, cfg, ext);
    } else {
      assert !AllDeploymentsCompile(req.dma.deployments, cfg, ext);
      assert ConvertSaves(req, cfg, ext) == ds + [];
      assert ds + [] == ds;
      assert Convert(st, req, cfg, ext) == deps;
    }
  }

  /** The saves after the deployments: the algorithm, then the microservices only if it compiled. */
  function AfterDeploymentsSaves(req: Request, cfg: Config, ext: Collaborators): seq<Write> {
    if AlgorithmCompiles(req, cfg, ext)
    then [Write(ArtifactPath("algorithm", req.algorithm.id), AlgorithmText(req, cfg, ext) + "\n")]
           + MicroservicesSaves(req.microservices, req, cfg, ext)
    else []
  }

  /** After the deployments (whose saves were ds): the algorithm, then the microservices. */
  lemma AfterDeploymentsSaved(st: St, base: map<string, string>, ds: seq<Write>, req: Request,
                              cfg: Config, ext: Collaborators)
    requires st.files == AppendAll(base, ds)
    ensures var alg := Algorithm(st, req, cfg, ext);
      var after := if alg.err.Some? then alg else Microservices(alg.st, req.microservices, req, cfg, ext);
      after.st.files == AppendAll(base, ds + AfterDeploymentsSaves(req, cfg, ext))
  {
    var alg := Algorithm(st, req, cfg, ext);
    var p := ArtifactPath("algorithm", req.algorithm.id);
    assert alg.err.None? <==> AlgorithmCompiles(req, cfg, ext) by {
      ConvertAndSaveCalls(st, "algorithm", req.algorithm.id, "algodt", req.algorithm, cfg, ext);
    }
    if alg.err.None? {
      var aw := Write(p, AlgorithmText(req, cfg, ext) + "\n");
      assert alg.st.files == st.files[p := Contents(st.files, p) + aw.content] by {
        ConvertAndSaveCalls(st, "algorithm", req.algorithm.id, "algodt", req.algorithm, cfg, ext);
        assert Contents(st.files, p) + AlgorithmText(req, cfg, ext) + "\n"
            == Contents(st.files, p) + (AlgorithmText(req, cfg, ext) + "\n");
      }
      MicroservicesSaved(alg.st, req.microservices, req, cfg, ext);
      AppendThen(base, ds, aw, MicroservicesSaves(req.microservices, req, cfg, ext), st.files, alg.st.files);
    } else {
      assert ds + [] == ds;
    }
  }

  /** Appending ds, then w, then ms is appending ds + ([w] + ms). */
  lemma AppendThen(base: map<string, string>, ds: seq<Write>, w: Write, ms: seq<Write>,
                   f1: map<string, string>, f2: map<string, string>)
    requires f1 == AppendAll(base, ds)
    requires f2 == f1[w.path := Contents(f1, w.path) + w.content]
    ensures AppendAll(f2, ms) == AppendAll(base, ds + ([w] + ms))
  {
    AppendOne(f1, w);
    AppendAllConcat(f1, [w], ms);
    AppendAllConcat(base, ds, [w] + ms);
  }

  // ---------------------------------------------------------------------------
  // The whole run
  // ---------------------------------------------------------------------------

  /** The saves made before packaging: none without a MODEL (staging raises), else those of ConvertSaves. */
  function RenderSaves(req: Request, cfg: Config, ext: Collaborators): seq<Write> {
    if req.model.None? then [] else ConvertSaves(req, cfg, ext)
  }

  /** Staging writes nothing under the artifact directory. */
  lemma StageKeepsArtifacts(st: St, req: Request, ext: Collaborators, p: string)
    requires DIR_OUT + "/" <= p
    ensures Contents(Stage(st, req, ext).st.files, p) == Contents(st.files, p)
  {
    assert p[0] == 'c';
    match req.model
    case None =>
      var ws := [SingletonWrite(req, ext, 0).value, SingletonWrite(req, ext, 1).value];
      JoinUnder(DIR_IN, "DMA" + "_" + req.dma.id + ".json");
      JoinUnder(DIR_IN, "MA" + "_" + req.ma.id + ".json");
      assert ws[0].path[0] == 'i' && ws[1].path[0] == 'i';
      ApplyWritesFrame(st.files, ws, p);
    case Some(_) =>
      StagePlanUnderInputs(req, ext);
      forall k | 0 <= k < |StagePlan(req, ext)| ensures StagePlan(req, ext)[k].path != p {
        assert StagePlan(req, ext)[k].path[0] == 'i';
      }
      ApplyWritesFrame(st.files, StagePlan(req, ext), p);
  }

  /** Packaging, validation and upload change no file but the archive. */
  lemma AssembleKeepsArtifacts(st: St, fullWd: string, genWd: string, req: Request, cfg: Config,
                               ext: Collaborators)
    ensures Assemble(st, fullWd, genWd, req, cfg, ext).st.files - {FILE_OUT} == st.files - {FILE_OUT}
  {
    var s2 := AddLog(st, "Creating csar zip starts...\n");
    var csar := CreateCsar(s2, fullWd, FName("algorithm", req.algorithm.id), cfg, ext);
    CreateCsarKeepsArtifacts(s2, fullWd, FName("algorithm", req.algorithm.id), cfg, ext);
    if csar.err.None? {
      PublishKeepsFiles(AddLog(AddLog(csar.st, "Creating csar zip finished.\n"),
                               "Validating csar zip (with micadoparser) starts...\n"), genWd, cfg, ext);
    }
  }

  /** The packaging tool writes the archive and no other file. */
  lemma CreateCsarKeepsArtifacts(st: St, fullWd: string, algFname: string, cfg: Config, ext: Collaborators)
    ensures CreateCsar(st, fullWd, algFname, cfg, ext).st.files - {FILE_OUT} == st.files - {FILE_OUT}
  {
  }

  /** Validation and upload write no file. */
  lemma PublishKeepsFiles(st: St, genWd: string, cfg: Config, ext: Collaborators)
    ensures Publish(st, genWd, cfg, ext).st.files == st.files
  {
  }

  /**
   * Every file under the artifact directory ends a configured run holding what it held
   * before followed by the texts appended before packaging, in order; an unconfigured run
   * changes nothing.
   */
  lemma GenerateArtifacts(st: St, genWd: string, req: Request, cfg: Config, ext: Collaborators, p: string)
    requires DIR_OUT + "/" <= p
    ensures var r := Generate(st, genWd, req, cfg, ext);
      && (cfg.workingDirectory.None? ==> r.st == st)
      && (cfg.workingDirectory.Some? ==>
            Contents(r.st.files, p) == Contents(st.files, p) + AppendedTo(RenderSaves(req, cfg, ext), p))
  {
    if cfg.workingDirectory.Some? {
      var fullWd := Join(cfg.workingDirectory.value, genWd);
      var staged := Stage(st, req, ext);
      var rendered := RenderAll(st, genWd, req, cfg, ext);
      GenerateUnfolds(st, genWd, req, cfg, ext);
      StageKeepsArtifacts(st, req, ext, p);
      assert Contents(rendered.st.files, p) == Contents(st.files, p) + AppendedTo(RenderSaves(req, cfg, ext), p) by {
        if staged.err.None? {
          var s1 := AddLog(AddLog(staged.st, "ADT generation process ID: " + genWd + "\n"),
                           "DMA tuple ID: " + req.dma.id + "\n");
          ConvertSaved(s1, req, cfg, ext);
          AppendAllContents(staged.st.files, ConvertSaves(req, cfg, ext), p);
        }
      }
      if rendered.err.None? {
        assert p != FILE_OUT by { assert p[0] == 'c'; }
        AssembleKeepsArtifacts(rendered.st, fullWd, genWd, req, cfg, ext);
        var after := Assemble(rendered.st, fullWd, genWd, req, cfg, ext).st.files;
        assert (p in after <==> p in after - {FILE_OUT}) && (p in rendered.st.files <==> p in rendered.st.files - {FILE_OUT});
        assert p in after ==> after[p] == (after - {FILE_OUT})[p];
        assert p in rendered.st.files ==> rendered.st.files[p] == (rendered.st.files - {FILE_OUT})[p];
      }
    }
  }

  // ---------------------------------------------------------------------------
  // Each artifact of a completed run holds its compiled text
  // ---------------------------------------------------------------------------

  /** A workspace with nothing yet under its artifact directory, as init_working_directory leaves it. */
  predicate NoArtifacts(files: map<string, string>) {
    forall p :: p in files ==> !(DIR_OUT + "/" <= p)
  }

  /** The deployment keys are distinct, as the keys of a dict are. */
  predicate DistinctKeys(deps: seq<(string, Obj)>) {
    forall i, j :: 0 <= i < j < |deps| ==> deps[i].0 != deps[j].0
  }

  /** No two microservices share an id. */
  predicate DistinctIds(mss: seq<Obj>) {
    forall i, j :: 0 <= i < j < |mss| ==> mss[i].id != mss[j].id
  }

  /** Artifacts of one kind share a path only if they share an id. */
  lemma ArtifactPathInjective(kind: string, a: string, b: string)
    requires ArtifactPath(kind, a) == ArtifactPath(kind, b)
    ensures a == b
  {
    assert ArtifactPath(kind, a)[|DIR_OUT| + 1..] == FName(kind, a);
    assert ArtifactPath(kind, b)[|DIR_OUT| + 1..] == FName(kind, b);
    FNameInjective(kind, a, b);
  }

  /** Artifacts of different kinds never share a path. */
  lemma ArtifactPathsDisjoint(a: string, b: string)
    ensures ArtifactPath("deployment", a) != ArtifactPath("algorithm", b)
    ensures ArtifactPath("deployment", a) != ArtifactPath("microservice", b)
    ensures ArtifactPath("algorithm", a) != ArtifactPath("microservice", b)
  {
    assert ArtifactPath("deployment", a)[|DIR_OUT| + 1] == 'd';
    assert ArtifactPath("algorithm", a)[|DIR_OUT| + 1] == 'a';
    assert ArtifactPath("algorithm", b)[|DIR_OUT| + 1] == 'a';
    assert ArtifactPath("microservice", b)[|DIR_OUT| + 1] == 'm';
  }

  /** When every deployment compiles, the loop saves each one, in order. */
  lemma {:induction false} DeploymentsSavesAll(deps: seq<(string, Obj)>, cfg: Config, ext: Collaborators)
    requires AllDeploymentsCompile(deps, cfg, ext)
    ensures var ws := DeploymentsSaves(deps, cfg, ext);
      && |ws| == |deps|
      && forall i :: 0 <= i < |deps| ==>
           ws[i] == Write(ArtifactPath("deployment", deps[i].0), DeploymentText(deps[i], cfg, ext) + "\n")
    decreases |deps|
  {
    if deps != [] {
      assert forall j :: 0 <= j < |deps[1..]| ==> deps[1..][j] == deps[j + 1];
      DeploymentsSavesAll(deps[1..], cfg, ext);
    }
  }

  /** When every microservice renders, the loop saves each one, in order. */
  lemma {:induction false} MicroservicesSavesAll(mss: seq<Obj>, req: Request, cfg: Config, ext: Collaborators)
    requires forall i :: 0 <= i < |mss| ==> MicroserviceRenders(mss[i], req, cfg, ext)
    ensures var ws := MicroservicesSaves(mss, req, cfg, ext);
      && |ws| == |mss|
      && forall i :: 0 <= i < |mss| ==>
           ws[i] == Write(ArtifactPath("microservice", mss[i].id), MicroserviceText(mss[i], req, cfg, ext) + "\n")
    decreases |mss|
  {
    if mss != [] {
      assert forall j :: 0 <= j < |mss[1..]| ==> mss[1..][j] == mss[j + 1];
      MicroservicesSavesAll(mss[1..], req, cfg, ext);
    }
  }

  /** The text of save k of a fully rendered request: deployment k, the algorithm, or a microservice. */
  function SaveText(req: Request, cfg: Config, ext: Collaborators, k: nat): string
    requires AllRender(req, cfg, ext) && k < 1 + |req.dma.deployments| + |req.microservices|
  {
    var n := |req.dma.deployments|;
    if k < n then DeploymentText(req.dma.deployments[k], cfg, ext) + "\n"
    else if k == n then AlgorithmText(req, cfg, ext) + "\n"
    else MicroserviceText(req.microservices[k - n - 1], req, cfg, ext) + "\n"
  }

  /** A fully rendered request is saved as: every deployment, the algorithm, every microservice. */
  lemma SaveAt(req: Request, cfg: Config, ext: Collaborators, k: nat)
    requires AllRender(req, cfg, ext) && k < 1 + |req.dma.deployments| + |req.microservices|
    ensures |RenderSaves(req, cfg, ext)| == 1 + |req.dma.deployments| + |req.microservices|
    ensures RenderSaves(req, cfg, ext)[k] == Write(SavePath(req, k), SaveText(req, cfg, ext, k))
  {
    var deps := req.dma.deployments;
    var n := |deps|;
    var ds := DeploymentsSaves(deps, cfg, ext);
    var ms := MicroservicesSaves(req.microservices, req, cfg, ext);
    var aw := Write(ArtifactPath("algorithm", req.algorithm.id), AlgorithmText(req, cfg, ext) + "\n");
    var ws := RenderSaves(req, cfg, ext);
    assert AllDeploymentsCompile(deps, cfg, ext);
    assert ws == ds + ([aw] + ms);
    DeploymentsSavesAll(deps, cfg, ext);
    MicroservicesSavesAll(req.microservices, req, cfg, ext);
    if k < n {
      assert ws[k] == ds[k];
    } else if k > n {
      assert ws[k] == ms[k - n - 1];
    }
  }

  /** With distinct keys and ids, every save of a fully rendered request goes to a path of its own. */
  lemma SavesUnique(req: Request, cfg: Config, ext: Collaborators, t: nat)
    requires AllRender(req, cfg, ext)
    requires DistinctKeys(req.dma.deployments) && DistinctIds(req.microservices)
    requires t < |RenderSaves(req, cfg, ext)|
    ensures var ws := RenderSaves(req, cfg, ext);
      forall j :: 0 <= j < |ws| && j != t ==> ws[j].path != ws[t].path
  {
    var ws := RenderSaves(req, cfg, ext);
    SaveAt(req, cfg, ext, 0);
    SaveAt(req, cfg, ext, t);
    forall j | 0 <= j < |ws| && j != t ensures ws[j].path != ws[t].path {
      SaveAt(req, cfg, ext, j);
      SavePathsDiffer(req, j, t);
    }
  }

  /** The path of save k of a fully rendered request. */
  function SavePath(req: Request, k: nat): string {
    var n := |req.dma.deployments|;
    if k < n then ArtifactPath("deployment", req.dma.deployments[k].0)
    else if k == n then ArtifactPath("algorithm", req.algorithm.id)
    else if k - n - 1 < |req.microservices| then ArtifactPath("microservice", req.microservices[k - n - 1].id)
    else ""
  }

  lemma SavePathsDiffer(req: Request, j: nat, t: nat)
    requires DistinctKeys(req.dma.deployments) && DistinctIds(req.microservices)
    requires j != t && j < 1 + |req.dma.deployments| + |req.microservices|
    requires t < 1 + |req.dma.deployments| + |req.microservices|
    ensures SavePath(req, j) != SavePath(req, t)
  {
    var n := |req.dma.deployments|;
    var deps := req.dma.deployments;
    var mss := req.microservices;
    if j < n && t < n {
      if SavePath(req, j) == SavePath(req, t) {
        ArtifactPathInjective("deployment", deps[j].0, deps[t].0);
      }
    } else if j > n && t > n {
      if SavePath(req, j) == SavePath(req, t) {
        ArtifactPathInjective("microservice", mss[j - n - 1].id, mss[t - n - 1].id);
      }
    } else {
      var a := if j < n then deps[j].0 else if j == n then req.algorithm.id else mss[j - n - 1].id;
      var b := if t < n then deps[t].0 else if t == n then req.algorithm.id else mss[t - n - 1].id;
      ArtifactPathsDisjoint(a, b);
      ArtifactPathsDisjoint(b, a);
    }
  }

  /** Every save of a fully rendered request is a non-empty text for a file under the artifact directory. */
  lemma SaveUnderArtifacts(req: Request, cfg: Config, ext: Collaborators, k: nat)
    requires AllRender(req, cfg, ext) && k < |RenderSaves(req, cfg, ext)|
    ensures var w := RenderSaves(req, cfg, ext)[k]; |w.content| > 0 && DIR_OUT + "/" <= w.path
  {
    var n := |req.dma.deployments|;
    SaveAt(req, cfg, ext, 0);
    SaveAt(req, cfg, ext, k);
    if k < n {
      JoinUnder(DIR_OUT, FName("deployment", req.dma.deployments[k].0));
    } else if k == n {
      JoinUnder(DIR_OUT, FName("algorithm", req.algorithm.id));
    } else {
      JoinUnder(DIR_OUT, FName("microservice", req.microservices[k - n - 1].id));
    }
  }

  /** A text appended alone to a file that did not exist is the whole file. */
  lemma LandsAlone(before: map<string, string>, after: map<string, string>, ws: seq<Write>, k: nat)
    requires k < |ws| && |ws[k].content| > 0
    requires forall j :: 0 <= j < |ws| && j != k ==> ws[j].path != ws[k].path
    requires Contents(after, ws[k].path) == Contents(before, ws[k].path) + AppendedTo(ws, ws[k].path)
    requires ws[k].path !in before
    ensures ws[k].path in after && after[ws[k].path] == ws[k].content
  {
    AppendedToUnique(ws, k);
  }

  /**
   * A completed run on a fresh workspace, for a request with distinct deployment keys and
   * microservice ids: every deployment's, the algorithm's and every microservice's artifact
   * holds exactly its compiled text followed by a newline.
   */
  lemma CompletedArtifactTexts(st: St, genWd: string, req: Request, cfg: Config, ext: Collaborators)
    requires NoArtifacts(st.files)
    requires DistinctKeys(req.dma.deployments) && DistinctIds(req.microservices)
    ensures var r := Generate(st, genWd, req, cfg, ext);
      var deps := req.dma.deployments;
      var mss := req.microservices;
      r.outcome.Completed? ==>
        && AllRender(req, cfg, ext)
        && (forall i :: 0 <= i < |deps| ==>
              && ArtifactPath("deployment", deps[i].0) in r.st.files
              && r.st.files[ArtifactPath("deployment", deps[i].0)] == DeploymentText(deps[i], cfg, ext) + "\n")
        && ArtifactPath("algorithm", req.algorithm.id) in r.st.files
        && r.st.files[ArtifactPath("algorithm", req.algorithm.id)] == AlgorithmText(req, cfg, ext) + "\n"
        && (forall i :: 0 <= i < |mss| ==>
              && ArtifactPath("microservice", mss[i].id) in r.st.files
              && r.st.files[ArtifactPath("microservice", mss[i].id)] == MicroserviceText(mss[i], req, cfg, ext) + "\n")
  {
    var r := Generate(st, genWd, req, cfg, ext);
    CompletedExactly(st, genWd, req, cfg, ext);
    if r.outcome.Completed? {
      var ws := RenderSaves(req, cfg, ext);
      forall k | 0 <= k < |ws| ensures ws[k].path in r.st.files && r.st.files[ws[k].path] == ws[k].content {
        SaveUnderArtifacts(req, cfg, ext, k);
        GenerateArtifacts(st, genWd, req, cfg, ext, ws[k].path);
        SavesUnique(req, cfg, ext, k);
        LandsAlone(st.files, r.st.files, ws, k);
      }
      SavesInFiles(r.st.files, req, cfg, ext);
    }
  }

  /** Files holding every save of a fully rendered request hold each artifact's compiled text. */
  lemma SavesInFiles(files: map<string, string>, req: Request, cfg: Config, ext: Collaborators)
    requires AllRender(req, cfg, ext)
    requires var ws := RenderSaves(req, cfg, ext);
      forall k :: 0 <= k < |ws| ==> ws[k].path in files && files[ws[k].path] == ws[k].content
    ensures var deps := req.dma.deployments;
      var mss := req.microservices;
      && (forall i :: 0 <= i < |deps| ==>
            && ArtifactPath("deployment", deps[i].0) in files
            && files[ArtifactPath("deployment", deps[i].0)] == DeploymentText(deps[i], cfg, ext) + "\n")
      && ArtifactPath("algorithm", req.algorithm.id) in files
      && files[ArtifactPath("algorithm", req.algorithm.id)] == AlgorithmText(req, cfg, ext) + "\n"
      && (forall i :: 0 <= i < |mss| ==>
            && ArtifactPath("microservice", mss[i].id) in files
            && files[ArtifactPath("microservice", mss[i].id)] == MicroserviceText(mss[i], req, cfg, ext) + "\n")
  {
    var ws := RenderSaves(req, cfg, ext);
    var n := |req.dma.deployments|;
    SaveAt(req, cfg, ext, n);
    forall i | 0 <= i < n
      ensures ArtifactPath("deployment", req.dma.deployments[i].0) in files
      ensures files[ArtifactPath("deployment", req.dma.deployments[i].0)]
                == DeploymentText(req.dma.deployments[i], cfg, ext) + "\n"
    {
      SaveAt(req, cfg, ext, i);
    }
    forall i | 0 <= i < |req.microservices|
      ensures ArtifactPath("microservice", req.microservices[i].id) in files
      ensures files[ArtifactPath("microservice", req.microservices[i].id)]
                == MicroserviceText(req.microservices[i], req, cfg, ext) + "\n"
    {
      SaveAt(req, cfg, ext, n + 1 + i);
    }
  }
}
