/** The three MAGMA stages of server/services/magma.js: the parameters each stage takes from
    the job's paths and form, the argument groups it hands to `magma`, and the batch plan of
    the gene analysis. */
module MagmaStages {

  import opened Wrappers
  import opened Strings
  import opened Js
  import opened MagmaCli
  import opened MagmaPaths

  /** A path that may be missing, as the JavaScript value `coalesceFilePaths` left. */
  function PathValueOf(p: Option<string>): (r: JsValue)
    ensures p.Some? ==> r == Str(p.value)
    ensures p.None? ==> !Truthy(r)
  {
    match p
    case Some(s) => Str(s)
    case None => Undefined
  }

  // ---------------------------------------------------------------- annotation

  datatype AnnotationParams = AnnotationParams(snpLocFile: string, geneLocFile: JsValue, outFile: string)

  /** `getAnnotationParams`: the SNP locations, the gene locations and the annotation prefix. */
  function GetAnnotationParams(p: Paths): (r: AnnotationParams)
    ensures r.outFile == p.geneAnnotFilePrefix && r.snpLocFile == p.snpLocFile
    ensures r.geneLocFile == PathValueOf(p.geneLocFile)
  {
    AnnotationParams(p.snpLocFile, PathValueOf(p.geneLocFile), p.geneAnnotFilePrefix)
  }

  /** The argument list `runAnnotation` passes to `magma`. */
  function AnnotationGroups(a: AnnotationParams): seq<ArgGroup>
  {
    [One(Str("--annotate")), One(Str("--snp-loc")), One(Str(a.snpLocFile)),
     One(Str("--gene-loc")), One(a.geneLocFile), One(Str("--out")), One(Str(a.outFile))]
  }

  /** With all three files present, the annotation runs with exactly its seven tokens. */
  lemma AnnotationArgv(a: AnnotationParams)
    requires a.snpLocFile != "" && a.outFile != "" && a.geneLocFile.Str? && a.geneLocFile.s != ""
    ensures Argv(AnnotationGroups(a)) ==
      ["--annotate", "--snp-loc", a.snpLocFile, "--gene-loc", a.geneLocFile.s, "--out", a.outFile]
  {
    var vs := [Str("--annotate"), Str("--snp-loc"), Str(a.snpLocFile),
               Str("--gene-loc"), a.geneLocFile, Str("--out"), Str(a.outFile)];
    ArgvOfSingles(AnnotationGroups(a), vs);
  }

  // ---------------------------------------------------------------- gene analysis

  datatype GeneAnalysisParams = GeneAnalysisParams(
    bFile: string,
    geneAnnotFile: string,
    genesOnly: bool,
    outFile: string,
    pvalFile: JsValue,
    sampleSize: JsValue)

  /** `{ constant: "N", fileColumn: "ncol" }[sampleSizeType]`. */
  function SampleSizeKey(sampleSizeType: JsValue): (r: JsValue)
  {
    var key := ToText(sampleSizeType);
    if key == "constant" then Str("N") else if key == "fileColumn" then Str("ncol") else Undefined
  }

  /** `{ constant: +sampleSize, fileColumn: sampleSizeColumn }[sampleSizeType]`. */
  function SampleSizeValue(params: Params): (r: JsValue)
  {
    var key := ToText(params.sampleSizeType);
    if key == "constant" then ToNumber(params.sampleSize)
    else if key == "fileColumn" then params.sampleSizeColumn
    else Undefined
  }

  /** The template literal `${sampleSizeKey}=${sampleSize}`. */
  function SampleSizeToken(params: Params): (r: string)
    ensures '=' in r
  {
    var t := ToText(SampleSizeKey(params.sampleSizeType)) + "=" + ToText(SampleSizeValue(params));
    assert t[|ToText(SampleSizeKey(params.sampleSizeType))|] == '=';
    t
  }

  /** Whether the job asks for a gene-set stage: the driver reads `covarFile`. */
  predicate RunsGeneSetAnalysis(params: Params)
  {
    Truthy(params.geneSetFile) || Truthy(params.covarFile)
  }

  /** `getGeneAnalysisParams`. */
  function GetGeneAnalysisParams(p: Paths, params: Params): (r: GeneAnalysisParams)
    ensures r.genesOnly <==> !RunsGeneSetAnalysis(params)
    ensures r.bFile == p.bFile && r.geneAnnotFile == p.geneAnnotFile && r.outFile == p.geneAnalysisFilePrefix
    ensures Truthy(params.snpPValuesFile) ==>
      r.pvalFile == PathValueOf(p.pValFile) && r.sampleSize == Str(SampleSizeToken(params))
    ensures !Truthy(params.snpPValuesFile) ==> r.pvalFile == Undefined && r.sampleSize == Undefined
  {
    var base := GeneAnalysisParams(p.bFile, p.geneAnnotFile, !RunsGeneSetAnalysis(params),
                                   p.geneAnalysisFilePrefix, Undefined, Undefined);
    if Truthy(params.snpPValuesFile) then
      base.(pvalFile := PathValueOf(p.pValFile), sampleSize := Str(SampleSizeToken(params)))
    else base
  }

  /** A constant sample size typed into the form as digits reaches MAGMA as `N=<n>`. */
  lemma ConstantSampleSize(p: Paths, params: Params, n: int)
    requires Truthy(params.snpPValuesFile)
    requires params.sampleSizeType == Str("constant") && params.sampleSize == Str(IntToString(n))
    ensures GetGeneAnalysisParams(p, params).sampleSize == Str("N=" + IntToString(n))
  {
    ConstantSampleSizeToken(params, n);
  }

  lemma ConstantSampleSizeToken(params: Params, n: int)
    requires params.sampleSizeType == Str("constant") && params.sampleSize == Str(IntToString(n))
    ensures SampleSizeToken(params) == "N=" + IntToString(n)
  {
    NumberTextRoundTrip(n);
    assert ToNumber(params.sampleSize) == Num(n);
    assert SampleSizeValue(params) == Num(n);
  }

  /** A sample size read from a column reaches MAGMA as `ncol=<column>`. */
  lemma ColumnSampleSize(p: Paths, params: Params, column: string)
    requires Truthy(params.snpPValuesFile)
    requires params.sampleSizeType == Str("fileColumn") && params.sampleSizeColumn == Str(column)
    ensures GetGeneAnalysisParams(p, params).sampleSize == Str("ncol=" + column)
  {
  }

  /** Any other sample size type still yields a token, `undefined=undefined`. */
  lemma UnknownSampleSizeType(p: Paths, params: Params)
    requires Truthy(params.snpPValuesFile)
    requires ToText(params.sampleSizeType) != "constant" && ToText(params.sampleSizeType) != "fileColumn"
    ensures GetGeneAnalysisParams(p, params).sampleSize == Str("undefined=undefined")
  {
  }

  /** The analysis form's `covariateFile` plays no part in the gene analysis. */
  lemma CovariateFileIgnored(p: Paths, params: Params, v: JsValue)
    ensures GetGeneAnalysisParams(p, params.(covariateFile := v)) == GetGeneAnalysisParams(p, params)
  {
  }

  /** `pvalFile && sampleSize && ["--pval", pvalFile, sampleSize]`. */
  function PvalGroup(g: GeneAnalysisParams): ArgGroup
  {
    Guarded(g.pvalFile, g.sampleSize, [Str("--pval"), g.pvalFile, g.sampleSize])
  }

  /** `genesOnly && "--genes-only"`. */
  function GenesOnlyGroup(g: GeneAnalysisParams): ArgGroup
  {
    if g.genesOnly then One(Str("--genes-only")) else One(Bool(false))
  }

  /** The argument list of one gene analysis over all genes (the win32 form). */
  function SingleGroups(g: GeneAnalysisParams): seq<ArgGroup>
  {
    [Many([Str("--bfile"), Str(g.bFile)]), PvalGroup(g), Many([Str("--gene-annot"), Str(g.geneAnnotFile)]),
     GenesOnlyGroup(g), Many([Str("--out"), Str(g.outFile)])]
  }

  /** The argument list of batch `index + 1` of `count`. */
  function BatchGroups(g: GeneAnalysisParams, index: nat, count: nat): seq<ArgGroup>
  {
    [Many([Str("--batch"), Num(index + 1), Num(count)])] + SingleGroups(g)
  }

  /** The argument lists of all `count` batches, in order. */
  function BatchCalls(g: GeneAnalysisParams, count: nat): seq<seq<ArgGroup>>
  {
    seq(count, i requires 0 <= i < count => BatchGroups(g, i, count))
  }

  /** The argument list of the merge that follows the batches. */
  function MergeGroups(g: GeneAnalysisParams): seq<ArgGroup>
  {
    [Many([Str("--merge"), Str(g.outFile)]), Many([Str("--out"), Str(g.outFile)])]
  }

  /** A batch runs the single analysis with `--batch <k> <n>` in front. */
  lemma BatchArgv(g: GeneAnalysisParams, index: nat, count: nat)
    requires index < count
    ensures Argv(BatchGroups(g, index, count)) ==
      ["--batch", NatToString(index + 1), NatToString(count)] + Argv(SingleGroups(g))
  {
    var head := [Str("--batch"), Num(index + 1), Num(count)];
    ArgvAppend([Many(head)], SingleGroups(g));
    ArgvOfTruthyGroup(head);
  }

  /** The p-value option is present exactly when both the file and the token are. */
  lemma PvalArgv(g: GeneAnalysisParams)
    ensures Truthy(g.pvalFile) && Truthy(g.sampleSize) ==>
      Argv([PvalGroup(g)]) == ["--pval", ToText(g.pvalFile), ToText(g.sampleSize)]
    ensures !(Truthy(g.pvalFile) && Truthy(g.sampleSize)) ==> Argv([PvalGroup(g)]) == []
  {
    if Truthy(g.pvalFile) && Truthy(g.sampleSize) {
      ArgvOfTruthyGroup([Str("--pval"), g.pvalFile, g.sampleSize]);
    } else {
      ArgvOmitted(PvalGroup(g).v);
    }
  }

  /** `--genes-only` is passed exactly when no gene-set stage follows. */
  lemma GenesOnlyArgv(g: GeneAnalysisParams)
    ensures Argv([GenesOnlyGroup(g)]) == if g.genesOnly then ["--genes-only"] else []
  {
    if g.genesOnly {
      ArgvOfTruthyGroup([Str("--genes-only")]);
      assert Flat([GenesOnlyGroup(g)]) == [Str("--genes-only")];
    } else {
      ArgvOmitted(Bool(false));
    }
  }

  /** `Math.floor(Math.min(cpus, freemem / 1024 ** 3 / 2))`: one process per CPU, and no more
      processes than 2 GiB pieces of free memory. */
  const TwoGiB: nat := 2 * 1024 * 1024 * 1024

  function MaxProcesses(cpus: nat, freeMem: nat): (r: nat)
    ensures r <= cpus && r * TwoGiB <= freeMem
    ensures r == cpus || freeMem < (r + 1) * TwoGiB
  {
    if cpus <= freeMem / TwoGiB then cpus else freeMem / TwoGiB
  }

  /** The largest process count within both limits. */
  lemma MaxProcessesIsGreatest(cpus: nat, freeMem: nat, n: nat)
    requires n <= cpus && n * TwoGiB <= freeMem
    ensures n <= MaxProcesses(cpus, freeMem)
  {
  }

  /** No CPU, or less than 2 GiB free, leaves room for no process. */
  lemma NoRoomForBatches(cpus: nat, freeMem: nat)
    requires cpus == 0 || freeMem < TwoGiB
    ensures MaxProcesses(cpus, freeMem) == 0
  {
  }

  /** The gene analysis as a plan of rounds, each a list of argument lists started together:
      outside win32 all batches at once and then the merge, on win32 one plain run. */
  function GeneAnalysisRounds(g: GeneAnalysisParams, platform: string, count: nat): (r: seq<seq<seq<ArgGroup>>>)
    ensures platform == "win32" ==> r == [[SingleGroups(g)]]
    ensures platform != "win32" ==> |r| == 2 && |r[0]| == count && r[1] == [MergeGroups(g)]
    ensures platform != "win32" ==> forall i :: 0 <= i < count ==> r[0][i] == BatchGroups(g, i, count)
  {
    if platform == "win32" then [[SingleGroups(g)]]
    else [BatchCalls(g, count), [MergeGroups(g)]]
  }

  /** With no memory or no CPUs to spare there are no batches, yet the merge still runs. */
  lemma ZeroBatchesStillMerge(g: GeneAnalysisParams, platform: string, cpus: nat, freeMem: nat)
    requires platform != "win32" && (cpus == 0 || freeMem < TwoGiB)
    ensures GeneAnalysisRounds(g, platform, MaxProcesses(cpus, freeMem)) == [[], [MergeGroups(g)]]
  {
    NoRoomForBatches(cpus, freeMem);
  }

  // ---------------------------------------------------------------- gene-set analysis

  datatype GeneSetAnalysisParams = GeneSetAnalysisParams(
    geneAnalysisRawFile: string,
    setFile: JsValue,
    covarFile: JsValue,
    outFile: string)

  /** `getGeneSetAnalysisParams`: the paths object has no `setFile` or `covarFile` entry, so
      both come out `undefined`. */
  function GetGeneSetAnalysisParams(p: Paths): (r: GeneSetAnalysisParams)
    ensures !Truthy(r.setFile) && !Truthy(r.covarFile)
    ensures r.geneAnalysisRawFile == p.geneAnalysisRawFile && r.outFile == p.geneSetAnalysisFilePrefix
  {
    GeneSetAnalysisParams(p.geneAnalysisRawFile, Undefined, Undefined, p.geneSetAnalysisFilePrefix)
  }

  function GeneSetGroups(s: GeneSetAnalysisParams): seq<ArgGroup>
  {
    [Many([Str("--gene-results"), Str(s.geneAnalysisRawFile)]),
     Guarded(s.setFile, s.setFile, [Str("--set-annot"), s.setFile]),
     Guarded(s.covarFile, s.covarFile, [Str("--gene-covar"), s.covarFile]),
     Many([Str("--out"), Str(s.outFile)])]
  }

  /** The gene-set stage never passes a set or covariate file: its arguments are only the raw
      gene results and the output prefix. */
  lemma GeneSetArgv(p: Paths)
    requires p.geneAnalysisRawFile != "" && p.geneSetAnalysisFilePrefix != ""
    ensures Argv(GeneSetGroups(GetGeneSetAnalysisParams(p))) ==
      ["--gene-results", p.geneAnalysisRawFile, "--out", p.geneSetAnalysisFilePrefix]
  {
    var s := GetGeneSetAnalysisParams(p);
    var gs := GeneSetGroups(s);
    assert gs == [gs[0]] + [gs[1]] + [gs[2]] + [gs[3]];
    ArgvAppend([gs[0]] + [gs[1]] + [gs[2]], [gs[3]]);
    ArgvAppend([gs[0]] + [gs[1]], [gs[2]]);
    ArgvAppend([gs[0]], [gs[1]]);
    ArgvOfTruthyGroup(gs[0].vs);
    ArgvOmitted(gs[1].v);
    ArgvOmitted(gs[2].v);
    ArgvOfTruthyGroup(gs[3].vs);
  }
}
