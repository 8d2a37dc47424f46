/** What `runMagma` guarantees about the order of its effects and the statuses it records. */
module MagmaRunProperties {

  import opened Wrappers
  import opened Strings
  import opened Js
  import opened MagmaCli
  import opened MagmaPaths
  import opened MagmaStages
  import opened MagmaRun

  /** The statuses a trace attempts to write to status.json, in order. A write that throws is
      listed too; `Persisted` keeps only the writes that land. */
  function Statuses(trace: seq<Effect>): seq<JobStatus>
  {
    if trace == [] then []
    else (if trace[0].WriteStatus? then [trace[0].status] else []) + Statuses(trace[1..])
  }

  lemma {:induction false} StatusesAppend(a: seq<Effect>, b: seq<Effect>)
    ensures Statuses(a + b) == Statuses(a) + Statuses(b)
  {
    if a == [] {
      assert a + b == b;
    } else {
      assert (a + b)[0] == a[0] && (a + b)[1..] == a[1..] + b;
      StatusesAppend(a[1..], b);
    }
  }

  /** The statuses that reach status.json: the status writes of a trace that did not throw.
      Every status write of `runMagma` is awaited, so a write lands exactly when it does not
      throw. */
  function Persisted(trace: seq<Effect>, w: World): seq<JobStatus>
  {
    if trace == [] then []
    else (if trace[0].WriteStatus? && w.fails(trace[0]).None? then [trace[0].status] else [])
         + Persisted(trace[1..], w)
  }

  lemma {:induction false} PersistedAppend(a: seq<Effect>, b: seq<Effect>, w: World)
    ensures Persisted(a + b, w) == Persisted(a, w) + Persisted(b, w)
  {
    if a == [] {
      assert a + b == b;
    } else {
      assert (a + b)[0] == a[0] && (a + b)[1..] == a[1..] + b;
      PersistedAppend(a[1..], b, w);
    }
  }

  /** Only a status the trace writes can land: the landed statuses are among those written,
      and there are no more of them. */
  lemma {:induction false} PersistedAmongWritten(trace: seq<Effect>, w: World)
    ensures |Persisted(trace, w)| <= |Statuses(trace)|
    ensures forall s :: s in Persisted(trace, w) ==> s in Statuses(trace)
  {
    if trace != [] {
      PersistedAmongWritten(trace[1..], w);
    }
  }

  /** When no status write of a trace throws, every status it writes lands. */
  lemma {:induction false} AllWritesLand(trace: seq<Effect>, w: World)
    requires forall i :: 0 <= i < |trace| && trace[i].WriteStatus? ==> w.fails(trace[i]).None?
    ensures Persisted(trace, w) == Statuses(trace)
  {
    if trace != [] {
      AllWritesLand(trace[1..], w);
    }
  }

  /** When every status write of a trace throws, no status lands. */
  lemma {:induction false} NoWriteLands(trace: seq<Effect>, w: World)
    requires forall i :: 0 <= i < |trace| && trace[i].WriteStatus? ==> w.fails(trace[i]).Some?
    ensures Persisted(trace, w) == []
  {
    if trace != [] {
      NoWriteLands(trace[1..], w);
    }
  }

  predicate OnlyInvokes(trace: seq<Effect>)
  {
    forall i :: 0 <= i < |trace| ==> trace[i].Invoke?
  }

  /** Process invocations write no status. */
  lemma {:induction false} InvokesWriteNoStatus(trace: seq<Effect>)
    requires OnlyInvokes(trace)
    ensures Statuses(trace) == []
  {
    if trace != [] {
      InvokesWriteNoStatus(trace[1..]);
    }
  }

  /** A call of `magma`: a process when the executable is present, a refusal otherwise. */
  predicate IsCall(a: Action, present: bool)
  {
    if present then a.Await? && a.effect.Invoke? else a.Refuse?
  }

  predicate OnlyCalls(steps: seq<Step>, present: bool)
  {
    forall i, j :: 0 <= i < |steps| && 0 <= j < |steps[i].actions| ==> IsCall(steps[i].actions[j], present)
  }

  lemma {:induction false} PerformedOnlyCalls(actions: seq<Action>, present: bool)
    requires forall j :: 0 <= j < |actions| ==> IsCall(actions[j], present)
    ensures OnlyInvokes(Performed(actions))
  {
    if actions != [] {
      PerformedOnlyCalls(actions[1..], present);
    }
  }

  /** A block of `magma` calls starts nothing but processes, however far it gets. */
  lemma {:induction false} ExecuteOnlyCalls(steps: seq<Step>, present: bool, w: World)
    requires OnlyCalls(steps, present)
    ensures OnlyInvokes(Execute(steps, w).trace)
  {
    if steps != [] {
      assert forall j :: 0 <= j < |steps[0].actions| ==> IsCall(steps[0].actions[j], present);
      PerformedOnlyCalls(steps[0].actions, present);
      assert OnlyCalls(steps[1..], present) by {
        forall i, j | 0 <= i < |steps[1..]| && 0 <= j < |steps[1..][i].actions|
          ensures IsCall(steps[1..][i].actions[j], present)
        {
          assert steps[1..][i] == steps[i + 1];
        }
      }
      ExecuteOnlyCalls(steps[1..], present, w);
    }
  }

  lemma {:induction false} AllPerformedAppend(a: seq<Step>, b: seq<Step>)
    ensures AllPerformed(a + b) == AllPerformed(a) + AllPerformed(b)
  {
    if a == [] {
      assert a + b == b;
    } else {
      assert (a + b)[0] == a[0] && (a + b)[1..] == a[1..] + b;
      AllPerformedAppend(a[1..], b);
    }
  }

  // ---------------------------------------------------------------- the stages

  function GeneSetRounds(params: Params, p: Paths, w: World): seq<Step>
  {
    var geneSet := GeneSetCalls(p, GetGeneAnalysisParams(p, params));
    seq(|geneSet|, i requires 0 <= i < |geneSet| => Step(Calls(geneSet[i], params.magmaType, w)))
  }

  lemma ToolPlanParts(params: Params, p: Paths, w: World)
    ensures ToolPlan(params, p, w) ==
      [Step(Calls(AnnotationCalls(p), params.magmaType, w))]
      + GeneAnalysisPlan(GetGeneAnalysisParams(p, params), params.magmaType, w)
      + GeneSetRounds(params, p, w)
  {
  }

  /** The gene-analysis plan: the batch round and the merge, or one call on win32. */
  lemma GeneAnalysisPlanShape(g: GeneAnalysisParams, magmaType: JsValue, w: World)
    ensures var rounds := GeneAnalysisRounds(g, w.platform, MaxProcesses(w.cpus, w.freeMem));
      GeneAnalysisPlan(g, magmaType, w) ==
        if w.platform == "win32" then [Step(Calls(rounds[0], magmaType, w))]
        else [Step(Calls(rounds[0], magmaType, w)), Step(Calls(rounds[1], magmaType, w))]
  {
  }

  lemma RoundOnlyCalls(calls: seq<seq<ArgGroup>>, magmaType: JsValue, w: World)
    ensures OnlyCalls([Step(Calls(calls, magmaType, w))], ExecPath(w.platform, magmaType) in w.installed)
  {
    var actions := Calls(calls, magmaType, w);
    assert forall j :: 0 <= j < |actions| ==> IsCall(actions[j], ExecPath(w.platform, magmaType) in w.installed);
  }

  lemma {:induction false} OnlyCallsAppend(a: seq<Step>, b: seq<Step>, present: bool)
    requires OnlyCalls(a, present) && OnlyCalls(b, present)
    ensures OnlyCalls(a + b, present)
  {
    forall i, j | 0 <= i < |a + b| && 0 <= j < |(a + b)[i].actions|
      ensures IsCall((a + b)[i].actions[j], present)
    {
      if i < |a| {
        assert (a + b)[i] == a[i];
      } else {
        assert (a + b)[i] == b[i - |a|];
      }
    }
  }

  /** The stages call `magma` and nothing else. */
  lemma ToolPlanOnlyCalls(params: Params, p: Paths, w: World)
    ensures OnlyCalls(ToolPlan(params, p, w), ExecPath(w.platform, params.magmaType) in w.installed)
  {
    var present := ExecPath(w.platform, params.magmaType) in w.installed;
    var g := GetGeneAnalysisParams(p, params);
    var rounds := GeneAnalysisRounds(g, w.platform, MaxProcesses(w.cpus, w.freeMem));
    ToolPlanParts(params, p, w);
    GeneAnalysisPlanShape(g, params.magmaType, w);
    RoundOnlyCalls(AnnotationCalls(p), params.magmaType, w);
    RoundOnlyCalls(rounds[0], params.magmaType, w);
    if w.platform != "win32" {
      RoundOnlyCalls(rounds[1], params.magmaType, w);
      OnlyCallsAppend([Step(Calls(rounds[0], params.magmaType, w))], [Step(Calls(rounds[1], params.magmaType, w))], present);
    }
    var geneSet := GeneSetCalls(p, g);
    if !g.genesOnly {
      RoundOnlyCalls(geneSet[0], params.magmaType, w);
      assert GeneSetRounds(params, p, w) == [Step(Calls(geneSet[0], params.magmaType, w))];
    }
    OnlyCallsAppend([Step(Calls(AnnotationCalls(p), params.magmaType, w))], GeneAnalysisPlan(g, params.magmaType, w), present);
    OnlyCallsAppend([Step(Calls(AnnotationCalls(p), params.magmaType, w))] + GeneAnalysisPlan(g, params.magmaType, w),
                    GeneSetRounds(params, p, w), present);
  }

  lemma AllPerformedRound(calls: seq<seq<ArgGroup>>, magmaType: JsValue, w: World)
    requires ExecPath(w.platform, magmaType) in w.installed
    ensures AllPerformed([Step(Calls(calls, magmaType, w))]) == Invocations(calls, ExecPath(w.platform, magmaType))
  {
    PerformedCalls(calls, magmaType, w);
  }

  /** With the executable present, the stages start, in this order: the annotation; then
      outside win32 every batch and after them the merge, on win32 one plain gene analysis;
      then the gene-set analysis exactly when the job asks for one. */
  lemma ToolInvocations(params: Params, p: Paths, w: World)
    requires ExecPath(w.platform, params.magmaType) in w.installed
    ensures var exec := ExecPath(w.platform, params.magmaType);
      var g := GetGeneAnalysisParams(p, params);
      var n := MaxProcesses(w.cpus, w.freeMem);
      AllPerformed(ToolPlan(params, p, w)) ==
        [Invoke(exec, Argv(AnnotationGroups(GetAnnotationParams(p))))]
        + (if w.platform == "win32" then [Invoke(exec, Argv(SingleGroups(g)))]
           else Invocations(BatchCalls(g, n), exec)
                + [Invoke(exec, Argv(MergeGroups(g)))])
        + (if RunsGeneSetAnalysis(params) then [Invoke(exec, Argv(GeneSetGroups(GetGeneSetAnalysisParams(p))))]
           else [])
  {
    var mt := params.magmaType;
    var annotation := [Step(Calls(AnnotationCalls(p), mt, w))];
    var gene := GeneAnalysisPlan(GetGeneAnalysisParams(p, params), mt, w);
    var geneSet := GeneSetRounds(params, p, w);
    ToolPlanParts(params, p, w);
    AllPerformedAppend(annotation + gene, geneSet);
    AllPerformedAppend(annotation, gene);
    AnnotationInvocations(p, mt, w);
    GeneAnalysisInvocations(GetGeneAnalysisParams(p, params), mt, w);
    GeneSetInvocations(params, p, w);
  }

  /** The annotation round starts one process. */
  lemma AnnotationInvocations(p: Paths, magmaType: JsValue, w: World)
    requires ExecPath(w.platform, magmaType) in w.installed
    ensures AllPerformed([Step(Calls(AnnotationCalls(p), magmaType, w))])
      == [Invoke(ExecPath(w.platform, magmaType), Argv(AnnotationGroups(GetAnnotationParams(p))))]
  {
    AllPerformedRound(AnnotationCalls(p), magmaType, w);
  }

  /** The gene analysis starts every batch and then the merge, or one process on win32. */
  lemma GeneAnalysisInvocations(g: GeneAnalysisParams, magmaType: JsValue, w: World)
    requires ExecPath(w.platform, magmaType) in w.installed
    ensures var exec := ExecPath(w.platform, magmaType);
      var n := MaxProcesses(w.cpus, w.freeMem);
      AllPerformed(GeneAnalysisPlan(g, magmaType, w)) ==
        if w.platform == "win32" then [Invoke(exec, Argv(SingleGroups(g)))]
        else Invocations(BatchCalls(g, n), exec)
             + [Invoke(exec, Argv(MergeGroups(g)))]
  {
    var exec := ExecPath(w.platform, magmaType);
    var n := MaxProcesses(w.cpus, w.freeMem);
    var rounds := GeneAnalysisRounds(g, w.platform, n);
    GeneAnalysisPlanShape(g, magmaType, w);
    AllPerformedRound(rounds[0], magmaType, w);
    if w.platform == "win32" {
      assert Invocations(rounds[0], exec) == [Invoke(exec, Argv(SingleGroups(g)))];
    } else {
      var first := [Step(Calls(rounds[0], magmaType, w))];
      var second := [Step(Calls(rounds[1], magmaType, w))];
      assert GeneAnalysisPlan(g, magmaType, w) == first + second;
      AllPerformedAppend(first, second);
      AllPerformedRound(rounds[1], magmaType, w);
      assert rounds[0] == BatchCalls(g, n);
      assert Invocations(rounds[1], exec) == [Invoke(exec, Argv(MergeGroups(g)))];
    }
  }

  /** The gene-set round starts one process when the job asks for it, and none otherwise. */
  lemma GeneSetInvocations(params: Params, p: Paths, w: World)
    requires ExecPath(w.platform, params.magmaType) in w.installed
    ensures var exec := ExecPath(w.platform, params.magmaType);
      AllPerformed(GeneSetRounds(params, p, w)) ==
        if RunsGeneSetAnalysis(params) then [Invoke(exec, Argv(GeneSetGroups(GetGeneSetAnalysisParams(p))))]
        else []
  {
    var exec := ExecPath(w.platform, params.magmaType);
    if RunsGeneSetAnalysis(params) {
      var calls := [GeneSetGroups(GetGeneSetAnalysisParams(p))];
      assert GeneSetRounds(params, p, w) == [Step(Calls(calls, params.magmaType, w))];
      AllPerformedRound(calls, params.magmaType, w);
      assert Invocations(calls, exec) == [Invoke(exec, Argv(GeneSetGroups(GetGeneSetAnalysisParams(p))))];
    } else {
      assert GeneSetRounds(params, p, w) == [];
    }
  }

  /** With no CPU or no 2 GiB of free memory outside win32, the gene analysis is the merge
      alone. */
  lemma ZeroBatchesRunOnlyMerge(params: Params, p: Paths, w: World)
    requires ExecPath(w.platform, params.magmaType) in w.installed
    requires w.platform != "win32" && (w.cpus == 0 || w.freeMem < TwoGiB)
    requires !RunsGeneSetAnalysis(params)
    ensures var exec := ExecPath(w.platform, params.magmaType);
      AllPerformed(ToolPlan(params, p, w)) ==
        [Invoke(exec, Argv(AnnotationGroups(GetAnnotationParams(p)))),
         Invoke(exec, Argv(MergeGroups(GetGeneAnalysisParams(p, params))))]
  {
    var exec := ExecPath(w.platform, params.magmaType);
    var g := GetGeneAnalysisParams(p, params);
    var mt := params.magmaType;
    var annotation := [Step(Calls(AnnotationCalls(p), mt, w))];
    var gene := GeneAnalysisPlan(g, mt, w);
    var geneSet := GeneSetRounds(params, p, w);
    ToolPlanParts(params, p, w);
    AllPerformedAppend(annotation + gene, geneSet);
    AllPerformedAppend(annotation, gene);
    AnnotationInvocations(p, mt, w);
    GeneSetInvocations(params, p, w);
    assert AllPerformed(geneSet) == [];
    GeneAnalysisInvocations(g, mt, w);
    NoRoomForBatches(w.cpus, w.freeMem);
    assert Invocations(BatchCalls(g, 0), exec) == [];
    assert AllPerformed(gene) == [Invoke(exec, Argv(MergeGroups(g)))];
  }

  // ---------------------------------------------------------------- the phases of the try block

  /** A single statement writes its own status, if it writes one and is not refused. */
  lemma ExecuteOne(a: Action, w: World)
    ensures var s := Execute([Sequential(a)], w);
      && s.trace == (if a.Refuse? then [] else [a.effect])
      && s.error == ActionFailure(a, w)
      && Statuses(s.trace) == (if !a.Refuse? && a.effect.WriteStatus? then [a.effect.status] else [])
  {
    assert Performed([a]) == (if a.Refuse? then [] else [a.effect]) + Performed([]);
  }

  predicate NoInvoke(trace: seq<Effect>)
  {
    forall i :: 0 <= i < |trace| ==> !trace[i].Invoke?
  }

  /** Four blocks in sequence: each runs only when all before it got through. */
  lemma ExecuteFour(a: seq<Step>, b: seq<Step>, c: seq<Step>, d: seq<Step>, w: World)
    ensures var ea, eb, ec, ed := Execute(a, w), Execute(b, w), Execute(c, w), Execute(d, w);
      Execute(a + b + c + d, w) ==
        if ea.error.Some? then ea
        else if eb.error.Some? then Execution(ea.trace + eb.trace, eb.error)
        else if ec.error.Some? then Execution(ea.trace + eb.trace + ec.trace, ec.error)
        else Execution(ea.trace + eb.trace + ec.trace + ed.trace, ed.error)
  {
    ExecuteAppend(a + b + c, d, w);
    ExecuteAppend(a + b, c, w);
    ExecuteAppend(a, b, w);
  }

  /** A statement followed by more: the rest runs only when the statement did not fail. */
  lemma ExecuteCons(a: Action, rest: seq<Step>, w: World)
    ensures var e := Execute(rest, w);
      Execute([Sequential(a)] + rest, w) ==
        if ActionFailure(a, w).Some? then Execution(Performed([a]), ActionFailure(a, w))
        else Execution(Performed([a]) + e.trace, e.error)
  {
    var all := [Sequential(a)] + rest;
    assert all[0] == Sequential(a) && all[1..] == rest;
    assert StepFailure([a], w) == ActionFailure(a, w) by {
      assert [a][1..] == [];
    }
  }

  lemma PerformedOne(a: Action)
    ensures Performed([a]) == if a.Refuse? then [] else [a.effect]
  {
    assert Performed([a]) == (if a.Refuse? then [] else [a.effect]) + Performed([]);
  }

  /** An awaited statement and one more: the second runs only when the first did not throw. */
  lemma TwoSingles(x3: Effect, x4: Action, w: World)
    ensures Execute([Sequential(Await(x3)), Sequential(x4)], w) ==
      if w.fails(x3).Some? then Execution([x3], w.fails(x3))
      else Execution([x3] + Performed([x4]), ActionFailure(x4, w))
  {
    var s3, s4 := Sequential(Await(x3)), Sequential(x4);
    assert [s3, s4] == [s3] + [s4];
    PerformedOne(Await(x3));
    ExecuteCons(Await(x3), [s4], w);
    if w.fails(x3).None? {
      assert [s4] == [s4] + [];
      ExecuteCons(x4, [], w);
    }
  }

  lemma ThreeSingles(x2: Effect, x3: Effect, x4: Action, w: World)
    ensures Execute([Sequential(Await(x2)), Sequential(Await(x3)), Sequential(x4)], w) ==
      if w.fails(x2).Some? then Execution([x2], w.fails(x2))
      else if w.fails(x3).Some? then Execution([x2, x3], w.fails(x3))
      else Execution([x2, x3] + Performed([x4]), ActionFailure(x4, w))
  {
    var s2, s3, s4 := Sequential(Await(x2)), Sequential(Await(x3)), Sequential(x4);
    assert [s2, s3, s4] == [s2] + [s3, s4];
    PerformedOne(Await(x2));
    ExecuteCons(Await(x2), [s3, s4], w);
    TwoSingles(x3, x4, w);
    assert [x2] + [x3] == [x2, x3];
    assert [x2] + ([x3] + Performed([x4])) == [x2, x3] + Performed([x4]);
  }

  /** Four single statements, the first three awaited: the block stops at the first that
      fails, having performed it and all before it. */
  lemma FourSingles(x1: Effect, x2: Effect, x3: Effect, x4: Action, w: World)
    ensures Execute([Sequential(Await(x1)), Sequential(Await(x2)), Sequential(Await(x3)), Sequential(x4)], w) ==
      if w.fails(x1).Some? then Execution([x1], w.fails(x1))
      else if w.fails(x2).Some? then Execution([x1, x2], w.fails(x2))
      else if w.fails(x3).Some? then Execution([x1, x2, x3], w.fails(x3))
      else Execution([x1, x2, x3] + Performed([x4]), ActionFailure(x4, w))
  {
    var s1, s2, s3, s4 := Sequential(Await(x1)), Sequential(Await(x2)), Sequential(Await(x3)), Sequential(x4);
    assert [s1, s2, s3, s4] == [s1] + [s2, s3, s4];
    PerformedOne(Await(x1));
    ExecuteCons(Await(x1), [s2, s3, s4], w);
    ThreeSingles(x2, x3, x4, w);
    assert [x1] + [x2] == [x1, x2];
    assert [x1] + [x2, x3] == [x1, x2, x3];
    assert [x1] + ([x2, x3] + Performed([x4])) == [x1, x2, x3] + Performed([x4]);
  }

  /** The statuses of the prefixes of `x1, x2, x3` and a tail, when only `x3` writes one. */
  lemma PrefixStatuses(x1: Effect, x2: Effect, x3: Effect, tail: seq<Effect>)
    requires !x1.WriteStatus? && !x2.WriteStatus? && x3.WriteStatus? && x3.status == InProgress
    requires Statuses(tail) == []
    ensures Statuses([x1]) == [] && Statuses([x1, x2]) == []
    ensures Statuses([x1, x2, x3]) == [InProgress] && Statuses([x1, x2, x3] + tail) == [InProgress]
  {
    assert Statuses([x3]) == [InProgress];
    assert Statuses([x2, x3]) == [InProgress] by { assert [x2, x3][1..] == [x3]; }
    assert Statuses([x1, x2, x3]) == [InProgress] by { assert [x1, x2, x3][1..] == [x2, x3]; }
    assert Statuses([x2]) == [] by { assert [x2][1..] == []; }
    assert Statuses([x1, x2]) == [] by { assert [x1, x2][1..] == [x2]; }
    StatusesAppend([x1, x2, x3], tail);
  }

  /** Four statements of which only the third writes a status (IN_PROGRESS) and none starts
      a process. */
  lemma FourStatements(x1: Effect, x2: Effect, x3: Effect, x4: Action, w: World)
    requires !x1.WriteStatus? && !x2.WriteStatus? && x3.WriteStatus? && x3.status == InProgress
    requires !x1.Invoke? && !x2.Invoke? && (x4.Refuse? || (!x4.effect.WriteStatus? && !x4.effect.Invoke?))
    ensures var s := Execute([Sequential(Await(x1)), Sequential(Await(x2)), Sequential(Await(x3)), Sequential(x4)], w);
      && (Statuses(s.trace) == [] || Statuses(s.trace) == [InProgress])
      && NoInvoke(s.trace)
      && (s.error.None? ==> Statuses(s.trace) == [InProgress])
  {
    FourSingles(x1, x2, x3, x4, w);
    var tail := Performed([x4]);
    PerformedOne(x4);
    assert Statuses(tail) == [] by {
      if !x4.Refuse? {
        assert tail[1..] == [];
      }
    }
    PrefixStatuses(x1, x2, x3, tail);
  }

  /** When those four statements get through, the fourth was not refused and the trace is
      their four effects in order. */
  lemma FourStatementsTrace(x1: Effect, x2: Effect, x3: Effect, x4: Action, w: World)
    requires Execute([Sequential(Await(x1)), Sequential(Await(x2)), Sequential(Await(x3)), Sequential(x4)], w).error.None?
    ensures !x4.Refuse?
    ensures Execute([Sequential(Await(x1)), Sequential(Await(x2)), Sequential(Await(x3)), Sequential(x4)], w).trace
      == [x1, x2, x3, x4.effect]
  {
    FourSingles(x1, x2, x3, x4, w);
    assert Performed([x4]) == (if x4.Refuse? then [] else [x4.effect]) + Performed([]);
    assert [x1, x2, x3] + [x4.effect] == [x1, x2, x3, x4.effect];
  }

  /** The setup writes IN_PROGRESS at most, and IN_PROGRESS when it gets through. */
  lemma SetupStatuses(params: Params, p: Paths, w: World)
    ensures var s := Execute(SetupPlan(params, p), w);
      && (Statuses(s.trace) == [] || Statuses(s.trace) == [InProgress])
      && (s.error.None? ==> Statuses(s.trace) == [InProgress])
  {
    var x4 := ManifestAction(p);
    FourStatements(MakeDirs([p.inputFolder, p.outputFolder]), WriteParams(p.paramsFile, params),
                   WriteStatus(p.statusFile, JobId(params), InProgress), x4, w);
  }

  /** When the setup gets through it has written the directories, params.json, IN_PROGRESS
      and the manifest, in that order; it never starts a process. */
  lemma SetupPhase(params: Params, p: Paths, w: World)
    ensures var s := Execute(SetupPlan(params, p), w);
      && NoInvoke(s.trace)
      && (s.error.None? ==> Manifest(p).Some? && s.trace == SetupEffects(params, p, Manifest(p).value))
  {
    var x1, x2 := MakeDirs([p.inputFolder, p.outputFolder]), WriteParams(p.paramsFile, params);
    var x3, x4 := WriteStatus(p.statusFile, JobId(params), InProgress), ManifestAction(p);
    FourStatements(x1, x2, x3, x4, w);
    if Execute(SetupPlan(params, p), w).error.None? {
      FourStatementsTrace(x1, x2, x3, x4, w);
    }
  }

  /** The stages write no status. */
  lemma ToolPhase(params: Params, p: Paths, w: World)
    ensures var s := Execute(ToolPlan(params, p, w), w);
      Statuses(s.trace) == [] && OnlyInvokes(s.trace)
  {
    ToolPlanOnlyCalls(params, p, w);
    ExecuteOnlyCalls(ToolPlan(params, p, w), ExecPath(w.platform, params.magmaType) in w.installed, w);
    InvokesWriteNoStatus(Execute(ToolPlan(params, p, w), w).trace);
  }

  /** Once the stages are through, the export starts and COMPLETED is written. */
  lemma FinishPhase(params: Params, p: Paths, w: World)
    ensures var s := Execute(FinishPlan(params, p), w);
      s.trace == FinishEffects(params, p) && Statuses(s.trace) == [Completed]
  {
    var plan := FinishPlan(params, p);
    assert plan == [plan[0]] + [plan[1]];
    ExecuteAppend([plan[0]], [plan[1]], w);
    ExecuteOne(plan[0].actions[0], w);
    ExecuteOne(plan[1].actions[0], w);
    StatusesAppend(Execute([plan[0]], w).trace, Execute([plan[1]], w).trace);
  }

  lemma NoticePhase(params: Params, notice: Effect, w: World)
    requires !notice.WriteStatus?
    ensures var s := Execute(NoticePlan(params, notice), w);
      Statuses(s.trace) == [] && s.trace == (if Truthy(params.email) then [notice] else [])
      && (s.error.Some? ==> Truthy(params.email) && s.error == w.fails(notice))
  {
    if Truthy(params.email) {
      ExecuteOne(Await(notice), w);
    }
  }

  /** The `catch` block always writes FAILED with the error's fields first. */
  lemma CatchPhase(params: Params, p: Paths, e: ErrorInfo, w: World)
    ensures var s := Execute(CatchPlan(params, p, e), w);
      Statuses(s.trace) == [Failed(e.fields)] && NoInvoke(s.trace)
  {
    var first := Await(WriteStatus(p.statusFile, JobId(params), Failed(e.fields)));
    var tail := NoticePlan(params, FailureNotice(params));
    ExecuteAppend([Sequential(first)], tail, w);
    ExecuteOne(first, w);
    NoticePhase(params, FailureNotice(params), w);
    var h := Execute([Sequential(first)], w);
    if h.error.None? {
      StatusesAppend(h.trace, Execute(tail, w).trace);
    }
  }

  /** Four effects of which only the third writes a status: that status lands when the
      write does not throw. */
  lemma ThirdWriteLands(x1: Effect, x2: Effect, x3: Effect, x4: Effect, w: World)
    requires !x1.WriteStatus? && !x2.WriteStatus? && x3.WriteStatus? && !x4.WriteStatus?
    requires w.fails(x3).None?
    ensures Persisted([x1, x2, x3, x4], w) == [x3.status]
  {
    assert Persisted([x4], w) == [] by { assert [x4][1..] == []; }
    assert Persisted([x3, x4], w) == [x3.status] by { assert [x3, x4][1..] == [x4]; }
    assert Persisted([x2, x3, x4], w) == [x3.status] by { assert [x2, x3, x4][1..] == [x3, x4]; }
    assert [x1, x2, x3, x4][1..] == [x2, x3, x4];
  }

  /** The setup gets through only once its IN_PROGRESS write has landed. */
  lemma SetupLands(params: Params, p: Paths, w: World)
    ensures var s := Execute(SetupPlan(params, p), w);
      s.error.None? ==> Persisted(s.trace, w) == [InProgress]
  {
    var plan := SetupPlan(params, p);
    if Execute(plan, w).error.None? {
      var x3 := WriteStatus(p.statusFile, JobId(params), InProgress);
      SetupPhase(params, p, w);
      ExecuteCleanOnly(plan, w);
      assert plan[2].actions[0] == Await(x3);
      ThirdWriteLands(MakeDirs([p.inputFolder, p.outputFolder]), WriteParams(p.paramsFile, params), x3,
                      WriteManifest(p.manifestFile, Manifest(p).value), w);
    }
  }

  /** The finish fails exactly when its COMPLETED write throws, and otherwise lands COMPLETED. */
  lemma FinishLands(params: Params, p: Paths, w: World)
    ensures var s := Execute(FinishPlan(params, p), w);
      && s.error == w.fails(WriteStatus(p.statusFile, JobId(params), Completed))
      && (s.error.None? ==> Persisted(s.trace, w) == [Completed])
  {
    var plan := FinishPlan(params, p);
    var s := Execute(plan, w);
    FinishPhase(params, p, w);
    assert plan == [plan[0]] + [plan[1]];
    ExecuteAppend([plan[0]], [plan[1]], w);
    ExecuteOne(plan[0].actions[0], w);
    ExecuteOne(plan[1].actions[0], w);
    if s.error.None? {
      AllWritesLand(s.trace, w);
    }
  }

  /** The `catch` block lands FAILED when its first write does not throw; when that write
      throws, the block fails with its error and no status lands. */
  lemma CatchLands(params: Params, p: Paths, e: ErrorInfo, w: World)
    ensures var s := Execute(CatchPlan(params, p, e), w);
      var failed := FailedWrite(params, p, e);
      && (w.fails(failed).None? ==> Persisted(s.trace, w) == [Failed(e.fields)])
      && (w.fails(failed).Some? ==> s.error == w.fails(failed) && Persisted(s.trace, w) == [])
  {
    var failed := FailedWrite(params, p, e);
    var tail := NoticePlan(params, FailureNotice(params));
    var s := Execute(CatchPlan(params, p, e), w);
    ExecuteCons(Await(failed), tail, w);
    PerformedOne(Await(failed));
    if w.fails(failed).None? {
      NoticePhase(params, FailureNotice(params), w);
      AllWritesLand(s.trace, w);
      CatchPhase(params, p, e, w);
    } else {
      NoWriteLands(s.trace, w);
    }
  }

  /** Statuses of four blocks in sequence: a setup that writes IN_PROGRESS when it gets
      through, stages that write none, a finish that writes COMPLETED, and a tail that writes
      none. */
  lemma FourBlockStatuses(a: seq<Step>, b: seq<Step>, c: seq<Step>, d: seq<Step>, w: World)
    requires var ea := Execute(a, w);
      (Statuses(ea.trace) == [] || Statuses(ea.trace) == [InProgress])
      && (ea.error.None? ==> Statuses(ea.trace) == [InProgress])
    requires Statuses(Execute(b, w).trace) == [] && Statuses(Execute(d, w).trace) == []
    requires Statuses(Execute(c, w).trace) == [Completed]
    ensures var s := Execute(a + b + c + d, w);
      && (Statuses(s.trace) == [] || Statuses(s.trace) == [InProgress] || Statuses(s.trace) == [InProgress, Completed])
      && (s.error.None? ==> Statuses(s.trace) == [InProgress, Completed])
  {
    ExecuteFour(a, b, c, d, w);
    var ea, eb, ec, ed := Execute(a, w), Execute(b, w), Execute(c, w), Execute(d, w);
    StatusesAppend(ea.trace, eb.trace);
    StatusesAppend(ea.trace + eb.trace, ec.trace);
    StatusesAppend(ea.trace + eb.trace + ec.trace, ed.trace);
  }

  /** The `try` block writes no status, IN_PROGRESS, or IN_PROGRESS then COMPLETED, and the
      latter whenever it gets through. */
  lemma TryStatuses(params: Params, p: Paths, w: World)
    ensures var s := Execute(TryPlan(params, p, w), w);
      && (Statuses(s.trace) == [] || Statuses(s.trace) == [InProgress] || Statuses(s.trace) == [InProgress, Completed])
      && (s.error.None? ==> Statuses(s.trace) == [InProgress, Completed])
  {
    SetupStatuses(params, p, w);
    ToolPhase(params, p, w);
    FinishPhase(params, p, w);
    NoticePhase(params, SuccessNotice(params), w);
    FourBlockStatuses(SetupPlan(params, p), ToolPlan(params, p, w), FinishPlan(params, p),
                      NoticePlan(params, SuccessNotice(params)), w);
  }

  /** Four blocks in sequence where the first two write no COMPLETED: a COMPLETED write means
      the first two got through and the third ran in full. */
  lemma FourBlockTrace(a: seq<Step>, b: seq<Step>, c: seq<Step>, d: seq<Step>, w: World)
    requires Completed !in Statuses(Execute(a, w).trace) && Completed !in Statuses(Execute(b, w).trace)
    ensures var s := Execute(a + b + c + d, w);
      var ea, eb, ec := Execute(a, w), Execute(b, w), Execute(c, w);
      && (Completed in Statuses(s.trace) ==>
            ea.error.None? && eb.error.None? && ea.trace + eb.trace + ec.trace <= s.trace)
      && (s.error.None? ==>
            ea.error.None? && eb.error.None? && ec.error.None? &&
            s.trace == ea.trace + eb.trace + ec.trace + Execute(d, w).trace)
  {
    ExecuteFour(a, b, c, d, w);
    var ea, eb := Execute(a, w), Execute(b, w);
    StatusesAppend(ea.trace, eb.trace);
  }

  /** A COMPLETED write in the `try` block means the setup and all three stages got through
      and the export was started first; a `try` block that gets through did all of it. */
  lemma TryTrace(params: Params, p: Paths, w: World)
    ensures var s := Execute(TryPlan(params, p, w), w);
      var setup, tools := Execute(SetupPlan(params, p), w), Execute(ToolPlan(params, p, w), w);
      && (Completed in Statuses(s.trace) ==>
            setup.error.None? && tools.error.None? && setup.trace + tools.trace + FinishEffects(params, p) <= s.trace)
      && (s.error.None? ==>
            setup.error.None? && tools.error.None? &&
            s.trace == setup.trace + tools.trace + FinishEffects(params, p)
                       + (if Truthy(params.email) then [SuccessNotice(params)] else []))
  {
    SetupStatuses(params, p, w);
    ToolPhase(params, p, w);
    FinishPhase(params, p, w);
    NoticePhase(params, SuccessNotice(params), w);
    FourBlockTrace(SetupPlan(params, p), ToolPlan(params, p, w), FinishPlan(params, p),
                   NoticePlan(params, SuccessNotice(params)), w);
  }

  /** Four blocks whose statuses land as IN_PROGRESS, none, COMPLETED and none. */
  lemma FourBlockLands(ta: seq<Effect>, tb: seq<Effect>, tc: seq<Effect>, td: seq<Effect>, w: World)
    requires Persisted(ta, w) == [InProgress] && Persisted(tc, w) == [Completed]
    requires Statuses(tb) == [] && Statuses(td) == []
    ensures Persisted(ta + tb + tc + td, w) == [InProgress, Completed]
  {
    PersistedAmongWritten(tb, w);
    PersistedAmongWritten(td, w);
    PersistedAppend(ta, tb, w);
    PersistedAppend(ta + tb, tc, w);
    PersistedAppend(ta + tb + tc, td, w);
  }

  /** A `try` block that gets through has landed IN_PROGRESS and then COMPLETED. */
  lemma TryLands(params: Params, p: Paths, w: World)
    ensures var s := Execute(TryPlan(params, p, w), w);
      s.error.None? ==> Persisted(s.trace, w) == [InProgress, Completed]
  {
    var a, b := SetupPlan(params, p), ToolPlan(params, p, w);
    var c, d := FinishPlan(params, p), NoticePlan(params, SuccessNotice(params));
    if Execute(a + b + c + d, w).error.None? {
      ExecuteFour(a, b, c, d, w);
      SetupLands(params, p, w);
      FinishLands(params, p, w);
      ToolPhase(params, p, w);
      NoticePhase(params, SuccessNotice(params), w);
      FourBlockLands(Execute(a, w).trace, Execute(b, w).trace, Execute(c, w).trace, Execute(d, w).trace, w);
    }
  }

  /** Whatever happens in the `try` block, no FAILED status lands in it. */
  lemma TryLandsNoFailure(params: Params, p: Paths, w: World)
    ensures var st := Persisted(Execute(TryPlan(params, p, w), w).trace, w);
      forall i :: 0 <= i < |st| ==> !st[i].Failed?
  {
    var s := Execute(TryPlan(params, p, w), w);
    var st := Persisted(s.trace, w);
    TryStatuses(params, p, w);
    PersistedAmongWritten(s.trace, w);
    forall i | 0 <= i < |st|
      ensures !st[i].Failed?
    {
      assert st[i] in st;
    }
  }
}
