/** The guarantees of `runMagma` as a whole: which statuses a job can end up with, what a
    COMPLETED status implies, and how a COMPLETED status can still be overwritten. */
module MagmaOutcomes {

  import opened Wrappers
  import opened Strings
  import opened Js
  import MagmaCli
  import opened MagmaPaths
  import opened MagmaStages
  import opened MagmaRun
  import opened MagmaRunProperties

  lemma CopyWritesNoStatus(params: Params, env: Env)
    ensures Statuses(CopyEffects(params, env)) == []
  {
  }

  /** `getPaths` runs before the `try` block: when it fails the run rejects having written no
      status at all (only the copy from a previous job may have been started). */
  lemma PathsFailureLeavesNoStatus(params: Params, env: Env, w: World)
    requires GetPaths(params, env, w.helpers).Failure?
    ensures Run(params, env, w) == RunResult(CopyEffects(params, env), PathsRejected(GetPaths(params, env, w.helpers).error))
    ensures Statuses(Run(params, env, w).trace) == []
  {
    CopyWritesNoStatus(params, env);
  }

  /** Once the paths are known, the run is the copy, the `try` block, and the `catch` block
      when the `try` block failed. */
  lemma RunResolved(params: Params, env: Env, w: World)
    requires GetPaths(params, env, w.helpers).Success?
    ensures var p := GetPaths(params, env, w.helpers).value;
      var copy := CopyEffects(params, env);
      var tried := Execute(TryPlan(params, p, w), w);
      && (tried.error.None? ==>
            Run(params, env, w) == RunResult(copy + tried.trace, Finished(!GetGeneAnalysisParams(p, params).genesOnly)))
      && (tried.error.Some? ==>
            var caught := Execute(CatchPlan(params, p, tried.error.value), w);
            Run(params, env, w) == RunResult(copy + tried.trace + caught.trace,
              if caught.error.None? then ReturnedFalse(tried.error.value) else Rejected(tried.error.value, caught.error.value)))
  {
  }

  /** Statuses of a copy that writes none, a `try` block, and a `catch` block that writes
      FAILED. */
  lemma ResolvedStatuses(copy: seq<Effect>, tried: seq<Effect>, caught: seq<Effect>, failed: JobStatus)
    requires Statuses(copy) == [] && Statuses(caught) == [failed]
    requires Statuses(tried) == [] || Statuses(tried) == [InProgress] || Statuses(tried) == [InProgress, Completed]
    ensures Statuses(copy + tried) == Statuses(tried)
    ensures var st := Statuses(copy + tried + caught);
      st == [failed] || st == [InProgress, failed] || st == [InProgress, Completed, failed]
  {
    StatusesAppend(copy, tried);
    StatusesAppend(copy + tried, caught);
  }

  /** Once the paths are known, the statuses written are IN_PROGRESS then COMPLETED on success;
      after a failure they end in FAILED with the error's fields, preceded by nothing, by
      IN_PROGRESS, or by IN_PROGRESS and COMPLETED. */
  lemma StatusSequence(params: Params, env: Env, w: World)
    requires GetPaths(params, env, w.helpers).Success?
    ensures var r := Run(params, env, w);
      && !r.outcome.PathsRejected?
      && (r.outcome.Finished? ==> Statuses(r.trace) == [InProgress, Completed])
      && (!r.outcome.Finished? ==>
            var failed := Failed(r.outcome.error.fields);
            Statuses(r.trace) == [failed] || Statuses(r.trace) == [InProgress, failed]
            || Statuses(r.trace) == [InProgress, Completed, failed])
  {
    var p := GetPaths(params, env, w.helpers).value;
    var copy := CopyEffects(params, env);
    var tried := Execute(TryPlan(params, p, w), w);
    RunResolved(params, env, w);
    CopyWritesNoStatus(params, env);
    TryStatuses(params, p, w);
    if tried.error.Some? {
      var e := tried.error.value;
      CatchPhase(params, p, e, w);
      ResolvedStatuses(copy, tried.trace, Execute(CatchPlan(params, p, e), w).trace, Failed(e.fields));
    } else {
      StatusesAppend(copy, tried.trace);
    }
  }

  /** Whatever happens after `getPaths`, the last status the run attempts to write satisfies
      `isComplete`. Whether that write lands is the subject of `FinishedLands`,
      `FailedLandsLast` and `FailedWriteThrows`. */
  lemma LastStatusIsComplete(params: Params, env: Env, w: World)
    requires GetPaths(params, env, w.helpers).Success?
    ensures var st := Statuses(Run(params, env, w).trace);
      |st| > 0 && IsComplete(Str(StatusText(st[|st| - 1])))
  {
    StatusSequence(params, env, w);
    var st := Statuses(Run(params, env, w).trace);
    IsCompleteIffTerminal(st[|st| - 1]);
  }

  /** A run that finishes leaves IN_PROGRESS then COMPLETED in status.json. */
  lemma FinishedLands(params: Params, env: Env, w: World)
    requires GetPaths(params, env, w.helpers).Success? && Run(params, env, w).outcome.Finished?
    ensures Persisted(Run(params, env, w).trace, w) == [InProgress, Completed]
  {
    var p := GetPaths(params, env, w.helpers).value;
    var copy := CopyEffects(params, env);
    var tried := Execute(TryPlan(params, p, w), w);
    assert tried.error.None? && Run(params, env, w).trace == copy + tried.trace;
    CopyLandsNothing(params, env, w);
    PersistedAppend(copy, tried.trace, w);
    TryLands(params, p, w);
  }

  lemma TryFailsRunFails(params: Params, env: Env, w: World)
    requires GetPaths(params, env, w.helpers).Success?
    requires Execute(TryPlan(params, GetPaths(params, env, w.helpers).value, w), w).error.Some?
    ensures !Run(params, env, w).outcome.Finished?
  {
  }

  /** A run that fails ends with the `try` block's trace followed by the `catch` block's. */
  lemma FailedRun(params: Params, env: Env, w: World)
    requires GetPaths(params, env, w.helpers).Success? && !Run(params, env, w).outcome.Finished?
    ensures var p := GetPaths(params, env, w.helpers).value;
      var tried := Execute(TryPlan(params, p, w), w);
      var r := Run(params, env, w);
      && tried.error.Some? && (r.outcome.ReturnedFalse? || r.outcome.Rejected?) && r.outcome.error == tried.error.value
      && r.trace == CopyEffects(params, env) + tried.trace + Execute(CatchPlan(params, p, r.outcome.error), w).trace
      && (r.outcome.Rejected? <==> Execute(CatchPlan(params, p, r.outcome.error), w).error.Some?)
  {
  }

  /** After a failure, when the `catch` block's FAILED write does not throw, FAILED with the
      error's fields is the last status in status.json, and it satisfies `isComplete`. */
  lemma FailedLandsLast(params: Params, env: Env, w: World)
    requires GetPaths(params, env, w.helpers).Success? && !Run(params, env, w).outcome.Finished?
    requires w.fails(FailedWrite(params, GetPaths(params, env, w.helpers).value, Run(params, env, w).outcome.error)).None?
    ensures var r := Run(params, env, w);
      var st := Persisted(r.trace, w);
      |st| > 0 && st[|st| - 1] == Failed(r.outcome.error.fields) && IsComplete(Str(StatusText(st[|st| - 1])))
  {
    var p := GetPaths(params, env, w.helpers).value;
    var r := Run(params, env, w);
    FailedRun(params, env, w);
    FailureLands(params, env, w, p, Execute(TryPlan(params, p, w), w).trace, r.outcome.error);
    IsCompleteIffTerminal(Failed(r.outcome.error.fields));
  }

  /** When the `catch` block's FAILED write throws, the run rejects and no FAILED status ever
      lands: status.json keeps what the `try` block left, which may be nothing or IN_PROGRESS. */
  lemma FailedWriteThrows(params: Params, env: Env, w: World)
    requires GetPaths(params, env, w.helpers).Success? && !Run(params, env, w).outcome.Finished?
    requires w.fails(FailedWrite(params, GetPaths(params, env, w.helpers).value, Run(params, env, w).outcome.error)).Some?
    ensures Run(params, env, w).outcome.Rejected?
    ensures var st := Persisted(Run(params, env, w).trace, w);
      forall i :: 0 <= i < |st| ==> !st[i].Failed?
  {
    var p := GetPaths(params, env, w.helpers).value;
    var r := Run(params, env, w);
    FailedRun(params, env, w);
    FailureLands(params, env, w, p, Execute(TryPlan(params, p, w), w).trace, r.outcome.error);
  }

  /** A `try` block whose setup gets through but whose executable is missing fails at the
      annotation, having landed IN_PROGRESS only. */
  lemma TryStopsAtAnnotation(params: Params, p: Paths, w: World)
    requires Execute(SetupPlan(params, p), w).error.None?
    requires MagmaCli.ExecPath(w.platform, params.magmaType) !in w.installed
    ensures var tried := Execute(TryPlan(params, p, w), w);
      tried.error.Some? && Persisted(tried.trace, w) == [InProgress]
  {
    var a, b := SetupPlan(params, p), ToolPlan(params, p, w);
    var c, d := FinishPlan(params, p), NoticePlan(params, SuccessNotice(params));
    ExecuteFour(a, b, c, d, w);
    if Execute(b, w).error.None? {
      ToolsThroughMeansInstalled(params, p, w);
    }
    SetupLands(params, p, w);
    ToolPhase(params, p, w);
    PersistedAmongWritten(Execute(b, w).trace, w);
    PersistedAppend(Execute(a, w).trace, Execute(b, w).trace, w);
  }

  /** The stuck case `waitUntilComplete` loops on: the setup gets through, a stage fails (here
      because the executable is missing) and the `catch` block's FAILED write throws. The run
      rejects, and status.json is left holding IN_PROGRESS, which `isComplete` never accepts
      (`IsCompleteIffTerminal`). */
  lemma StuckInProgress(params: Params, env: Env, w: World)
    requires GetPaths(params, env, w.helpers).Success?
    requires Execute(SetupPlan(params, GetPaths(params, env, w.helpers).value), w).error.None?
    requires MagmaCli.ExecPath(w.platform, params.magmaType) !in w.installed
    requires forall e: ErrorInfo :: w.fails(FailedWrite(params, GetPaths(params, env, w.helpers).value, e)).Some?
    ensures Run(params, env, w).outcome.Rejected?
    ensures Persisted(Run(params, env, w).trace, w) == [InProgress]
  {
    var p := GetPaths(params, env, w.helpers).value;
    var copy := CopyEffects(params, env);
    var tried := Execute(TryPlan(params, p, w), w);
    TryStopsAtAnnotation(params, p, w);
    TryFailsRunFails(params, env, w);
    FailedRun(params, env, w);
    var e := tried.error.value;
    var caught := Execute(CatchPlan(params, p, e), w);
    CatchLands(params, p, e, w);
    CopyLandsNothing(params, env, w);
    PersistedAppend(copy, tried.trace, w);
    PersistedAppend(copy + tried.trace, caught.trace, w);
  }

  lemma CopyLandsNothing(params: Params, env: Env, w: World)
    ensures Persisted(CopyEffects(params, env), w) == []
  {
    CopyWritesNoStatus(params, env);
    PersistedAmongWritten(CopyEffects(params, env), w);
  }

  /** After a failed `try` block: FAILED lands last when its write does not throw, and
      otherwise no FAILED status lands. */
  lemma FailureLands(params: Params, env: Env, w: World, p: Paths, tried: seq<Effect>, e: ErrorInfo)
    requires tried == Execute(TryPlan(params, p, w), w).trace
    ensures var st := Persisted(CopyEffects(params, env) + tried + Execute(CatchPlan(params, p, e), w).trace, w);
      && (w.fails(FailedWrite(params, p, e)).None? ==> |st| > 0 && st[|st| - 1] == Failed(e.fields))
      && (w.fails(FailedWrite(params, p, e)).Some? ==>
            Execute(CatchPlan(params, p, e), w).error.Some? && forall i :: 0 <= i < |st| ==> !st[i].Failed?)
  {
    var copy := CopyEffects(params, env);
    var caught := Execute(CatchPlan(params, p, e), w);
    CopyLandsNothing(params, env, w);
    PersistedAppend(copy, tried, w);
    PersistedAppend(copy + tried, caught.trace, w);
    CatchLands(params, p, e, w);
    if w.fails(FailedWrite(params, p, e)).Some? {
      TryLandsNoFailure(params, p, w);
    }
  }

  /** The stuck case exists: when every status write throws, the run rejects and nothing ever
      lands in status.json, so a poller waiting for COMPLETED or FAILED never sees one. */
  lemma StuckWhenStatusWritesThrow(params: Params, env: Env, w: World)
    requires GetPaths(params, env, w.helpers).Success?
    requires forall e: Effect :: e.WriteStatus? ==> w.fails(e).Some?
    ensures Run(params, env, w).outcome.Rejected?
    ensures Persisted(Run(params, env, w).trace, w) == []
  {
    var p := GetPaths(params, env, w.helpers).value;
    var tried := Execute(TryPlan(params, p, w), w);
    NoWriteLands(Run(params, env, w).trace, w);
    NoWriteLands(tried.trace, w);
    TryLands(params, p, w);
    CatchLands(params, p, tried.error.value, w);
  }

  /** The stages got through only if the executable was there: the annotation alone would
      have been refused. */
  lemma ToolsThroughMeansInstalled(params: Params, p: Paths, w: World)
    requires Execute(ToolPlan(params, p, w), w).error.None?
    ensures MagmaCli.ExecPath(w.platform, params.magmaType) in w.installed
  {
    var first := Calls(AnnotationCalls(p), params.magmaType, w);
    assert ToolPlan(params, p, w)[0] == Step(first);
    assert StepFailure(first, w).None?;
    assert ActionFailure(first[0], w).None?;
  }

  /** Within the `try` block: a COMPLETED write comes after the setup (so the manifest could be
      built), after every MAGMA call of the three stages (so the executable was there) and
      after the export was started. */
  lemma TryCompleted(params: Params, p: Paths, w: World)
    requires Completed in Statuses(Execute(TryPlan(params, p, w), w).trace)
    ensures && Manifest(p).Some?
      && MagmaCli.ExecPath(w.platform, params.magmaType) in w.installed
      && SetupEffects(params, p, Manifest(p).value) + AllPerformed(ToolPlan(params, p, w)) + FinishEffects(params, p)
         <= Execute(TryPlan(params, p, w), w).trace
  {
    TryTrace(params, p, w);
    SetupPhase(params, p, w);
    ExecuteSucceeds(ToolPlan(params, p, w), w);
    ToolsThroughMeansInstalled(params, p, w);
  }

  /** A COMPLETED status in the whole trace comes from the `try` block. */
  lemma CompletedFromTry(copy: seq<Effect>, tried: seq<Effect>, caught: seq<Effect>, failed: JobStatus)
    requires Statuses(copy) == [] && Statuses(caught) == [failed] && failed != Completed
    requires Completed in Statuses(copy + tried + caught)
    ensures Completed in Statuses(tried)
  {
    StatusesAppend(copy, tried);
    StatusesAppend(copy + tried, caught);
  }

  lemma PrefixExtends(copy: seq<Effect>, x: seq<Effect>, tried: seq<Effect>, caught: seq<Effect>)
    requires x <= tried
    ensures copy + x <= copy + tried && copy + x <= copy + tried + caught
  {
    assert (copy + tried + caught)[..|copy + x|] == copy + x;
  }

  /** COMPLETED is written only after the directories, params.json, IN_PROGRESS and the
      manifest, then every MAGMA call of the three stages, then the start of the export. */
  lemma CompletedOnlyAfterAllStages(params: Params, env: Env, w: World)
    requires GetPaths(params, env, w.helpers).Success?
    requires Completed in Statuses(Run(params, env, w).trace)
    ensures var p := GetPaths(params, env, w.helpers).value;
      && Manifest(p).Some?
      && MagmaCli.ExecPath(w.platform, params.magmaType) in w.installed
      && CopyEffects(params, env) + (SetupEffects(params, p, Manifest(p).value)
         + AllPerformed(ToolPlan(params, p, w)) + FinishEffects(params, p)) <= Run(params, env, w).trace
  {
    var p := GetPaths(params, env, w.helpers).value;
    var copy := CopyEffects(params, env);
    var tried := Execute(TryPlan(params, p, w), w);
    RunResolved(params, env, w);
    CopyWritesNoStatus(params, env);
    if tried.error.Some? {
      var e := tried.error.value;
      var caught := Execute(CatchPlan(params, p, e), w);
      CatchPhase(params, p, e, w);
      CompletedFromTry(copy, tried.trace, caught.trace, Failed(e.fields));
      TryCompleted(params, p, w);
      PrefixExtends(copy, SetupEffects(params, p, Manifest(p).value) + AllPerformed(ToolPlan(params, p, w))
                          + FinishEffects(params, p), tried.trace, caught.trace);
    } else {
      StatusesAppend(copy, tried.trace);
      TryCompleted(params, p, w);
      PrefixExtends(copy, SetupEffects(params, p, Manifest(p).value) + AllPerformed(ToolPlan(params, p, w))
                          + FinishEffects(params, p), tried.trace, []);
    }
  }

  /** Within the `try` block: getting through means the setup, every MAGMA call, the finish
      and the success e-mail (when an address is given), in that order. */
  lemma TryThrough(params: Params, p: Paths, w: World)
    requires Execute(TryPlan(params, p, w), w).error.None?
    ensures && Manifest(p).Some?
      && MagmaCli.ExecPath(w.platform, params.magmaType) in w.installed
      && Execute(TryPlan(params, p, w), w).trace ==
           SetupEffects(params, p, Manifest(p).value) + AllPerformed(ToolPlan(params, p, w)) + FinishEffects(params, p)
           + (if Truthy(params.email) then [SuccessNotice(params)] else [])
  {
    TryTrace(params, p, w);
    SetupPhase(params, p, w);
    ExecuteSucceeds(ToolPlan(params, p, w), w);
    ToolsThroughMeansInstalled(params, p, w);
  }

  /** A run that returns its results did everything in order, and ran the gene-set stage
      exactly when the job named a gene-set or covariate file. */
  lemma FinishedTrace(params: Params, env: Env, w: World)
    requires Run(params, env, w).outcome.Finished?
    ensures GetPaths(params, env, w.helpers).Success?
    ensures var p := GetPaths(params, env, w.helpers).value;
      && (Run(params, env, w).outcome.ranGeneSet <==> RunsGeneSetAnalysis(params))
      && Manifest(p).Some?
      && MagmaCli.ExecPath(w.platform, params.magmaType) in w.installed
      && Run(params, env, w).trace ==
           CopyEffects(params, env) + (SetupEffects(params, p, Manifest(p).value)
           + AllPerformed(ToolPlan(params, p, w)) + FinishEffects(params, p)
           + (if Truthy(params.email) then [SuccessNotice(params)] else []))
  {
    var p := GetPaths(params, env, w.helpers).value;
    RunResolved(params, env, w);
    TryThrough(params, p, w);
  }

  /** Only e-mails can throw. */
  ghost predicate OnlyMailFails(w: World)
  {
    forall e: Effect :: !e.Notify? ==> w.fails(e).None?
  }

  /** Rounds of `magma` calls whose executable is present get through when processes do not
      throw. */
  lemma CallsClean(steps: seq<Step>, w: World)
    requires OnlyCalls(steps, true) && OnlyMailFails(w)
    ensures Execute(steps, w).error.None?
  {
    forall i, j | 0 <= i < |steps| && 0 <= j < |steps[i].actions|
      ensures ActionFailure(steps[i].actions[j], w).None?
    {
      assert IsCall(steps[i].actions[j], true);
    }
    ExecuteClean(steps, w);
  }

  /** Four statements get through when none of them throws. */
  lemma FourClean(x1: Action, x2: Action, x3: Action, x4: Action, w: World)
    requires ActionFailure(x1, w).None? && ActionFailure(x2, w).None?
    requires ActionFailure(x3, w).None? && ActionFailure(x4, w).None?
    ensures Execute([Sequential(x1), Sequential(x2), Sequential(x3), Sequential(x4)], w).error.None?
  {
    var s1, s2, s3, s4 := Sequential(x1), Sequential(x2), Sequential(x3), Sequential(x4);
    assert [s1, s2, s3, s4] == [s1] + ([s2] + ([s3] + [s4]));
    assert [s4] == [s4] + [];
    ExecuteCons(x4, [], w);
    ExecuteCons(x3, [s4], w);
    ExecuteCons(x2, [s3] + [s4], w);
    ExecuteCons(x1, [s2] + ([s3] + [s4]), w);
  }

  /** The manifest, once it can be built, is written unless writing it throws. */
  lemma ManifestClean(p: Paths, w: World)
    requires !ManifestAction(p).Refuse? && OnlyMailFails(w)
    ensures ActionFailure(ManifestAction(p), w).None?
  {
    assert !ManifestAction(p).effect.Notify?;
  }

  lemma NotMailClean(e: Effect, w: World)
    requires OnlyMailFails(w) && !e.Notify?
    ensures w.fails(e).None?
  {
  }

  lemma SetupClean(params: Params, p: Paths, w: World)
    requires ActionFailure(ManifestAction(p), w).None? && OnlyMailFails(w)
    ensures Execute(SetupPlan(params, p), w).error.None?
  {
    var x1, x2 := MakeDirs([p.inputFolder, p.outputFolder]), WriteParams(p.paramsFile, params);
    var x3 := WriteStatus(p.statusFile, JobId(params), InProgress);
    NotMailClean(x1, w);
    NotMailClean(x2, w);
    NotMailClean(x3, w);
    FourClean(Await(x1), Await(x2), Await(x3), ManifestAction(p), w);
  }

  lemma ToolsClean(params: Params, p: Paths, w: World)
    requires MagmaCli.ExecPath(w.platform, params.magmaType) in w.installed && OnlyMailFails(w)
    ensures Execute(ToolPlan(params, p, w), w).error.None?
  {
    ToolPlanOnlyCalls(params, p, w);
    CallsClean(ToolPlan(params, p, w), w);
  }

  lemma FinishClean(params: Params, p: Paths, w: World)
    requires OnlyMailFails(w)
    ensures Execute(FinishPlan(params, p), w).error.None?
  {
    ExecuteClean(FinishPlan(params, p), w);
  }

  /** Four blocks of which the first three get through, writing IN_PROGRESS, nothing and
      COMPLETED: the whole ends as the fourth does, after those two statuses. */
  lemma ThroughToLast(a: seq<Step>, b: seq<Step>, c: seq<Step>, d: seq<Step>, w: World)
    requires Execute(a, w).error.None? && Execute(b, w).error.None? && Execute(c, w).error.None?
    requires Statuses(Execute(a, w).trace) == [InProgress] && Statuses(Execute(b, w).trace) == []
    requires Statuses(Execute(c, w).trace) == [Completed] && Statuses(Execute(d, w).trace) == []
    ensures Execute(a + b + c + d, w).error == Execute(d, w).error
    ensures Statuses(Execute(a + b + c + d, w).trace) == [InProgress, Completed]
  {
    ExecuteFour(a, b, c, d, w);
    var ea, eb, ec, ed := Execute(a, w), Execute(b, w), Execute(c, w), Execute(d, w);
    StatusesAppend(ea.trace, eb.trace);
    StatusesAppend(ea.trace + eb.trace, ec.trace);
    StatusesAppend(ea.trace + eb.trace + ec.trace, ed.trace);
  }

  /** Within the `try` block: when everything but the success e-mail succeeds and that
      e-mail fails, the block fails with the e-mail's error after IN_PROGRESS and COMPLETED. */
  lemma TryFailsAtNotice(params: Params, p: Paths, w: World)
    requires ActionFailure(ManifestAction(p), w).None?
    requires MagmaCli.ExecPath(w.platform, params.magmaType) in w.installed
    requires Truthy(params.email)
    requires OnlyMailFails(w)
    ensures var tried := Execute(TryPlan(params, p, w), w);
      && tried.error == w.fails(SuccessNotice(params))
      && Statuses(tried.trace) == [InProgress, Completed]
  {
    SetupClean(params, p, w);
    ToolsClean(params, p, w);
    FinishClean(params, p, w);
    SetupStatuses(params, p, w);
    ToolPhase(params, p, w);
    FinishPhase(params, p, w);
    NoticePhase(params, SuccessNotice(params), w);
    ExecuteOne(Await(SuccessNotice(params)), w);
    ThroughToLast(SetupPlan(params, p), ToolPlan(params, p, w), FinishPlan(params, p),
                  NoticePlan(params, SuccessNotice(params)), w);
  }

  /** The `catch` block gets through when only the success e-mail can fail: the failure
      e-mail is a different message. */
  lemma CatchThrough(params: Params, p: Paths, e: ErrorInfo, w: World)
    requires forall x :: x != SuccessNotice(params) ==> w.fails(x).None?
    ensures Execute(CatchPlan(params, p, e), w).error.None?
  {
    assert FailureNotice(params).subject[9] == 'F' && SuccessNotice(params).subject[9] == 'C';
    assert FailureNotice(params) != SuccessNotice(params);
    ExecuteClean(CatchPlan(params, p, e), w);
  }

  lemma OnlySuccessMailFails(params: Params, w: World)
    requires forall e :: e != SuccessNotice(params) ==> w.fails(e).None?
    ensures OnlyMailFails(w)
  {
    forall x: Effect | !x.Notify?
      ensures w.fails(x).None?
    {
      assert x != SuccessNotice(params);
    }
  }

  /** A run whose `try` block wrote IN_PROGRESS and COMPLETED and then failed. */
  lemma OverwrittenStatuses(copy: seq<Effect>, tried: seq<Effect>, caught: seq<Effect>, failed: JobStatus)
    requires Statuses(copy) == [] && Statuses(tried) == [InProgress, Completed] && Statuses(caught) == [failed]
    ensures Statuses(copy + tried + caught) == [InProgress, Completed, failed]
  {
    StatusesAppend(copy, tried);
    StatusesAppend(copy + tried, caught);
  }

  /** The success e-mail is sent inside the `try` block: if only that e-mail fails, the
      COMPLETED status is followed by FAILED and the run returns `false`. */
  lemma CompletedCanBeOverwritten(params: Params, env: Env, w: World)
    requires GetPaths(params, env, w.helpers).Success?
    requires Manifest(GetPaths(params, env, w.helpers).value).Some?
    requires MagmaCli.ExecPath(w.platform, params.magmaType) in w.installed
    requires Truthy(params.email)
    requires forall e :: e != SuccessNotice(params) ==> w.fails(e).None?
    requires w.fails(SuccessNotice(params)).Some?
    ensures var e := w.fails(SuccessNotice(params)).value;
      && Run(params, env, w).outcome == ReturnedFalse(e)
      && Statuses(Run(params, env, w).trace) == [InProgress, Completed, Failed(e.fields)]
  {
    var p := GetPaths(params, env, w.helpers).value;
    var e := w.fails(SuccessNotice(params)).value;
    RunResolved(params, env, w);
    OnlySuccessMailFails(params, w);
    ManifestClean(p, w);
    TryFailsAtNotice(params, p, w);
    CatchThrough(params, p, e, w);
    CatchPhase(params, p, e, w);
    CopyWritesNoStatus(params, env);
    OverwrittenStatuses(CopyEffects(params, env), Execute(TryPlan(params, p, w), w).trace,
                        Execute(CatchPlan(params, p, e), w).trace, Failed(e.fields));
  }
}
