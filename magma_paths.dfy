/** `getPaths` in server/services/magma.js: every file path of one job, derived from the job's
    parameters and the input/output roots, and the manifest of base names written from them. */
module MagmaPaths {

  import opened Wrappers
  import opened Strings
  import opened Js

  /** The two roots `getPaths` reads from the environment. */
  datatype Env = Env(inputFolder: string, outputFolder: string)

  /** The job parameters as read from params.json. Scalar fields keep their JavaScript value
      (a field may be missing, null or of another type); the two file lists are arrays or absent.
      `covariateFile` is the name the analysis form uses; `covarFile` is the name the driver reads. */
  datatype Params = Params(
    id: JsValue,
    previousId: JsValue,
    magmaType: JsValue,
    snpPopulation: JsValue,
    referenceDataFiles: Option<seq<string>>,
    geneLocationFile: JsValue,
    genotypeDataSource: JsValue,
    rawGenotypeDataFiles: Option<seq<string>>,
    snpPValuesFile: JsValue,
    sampleSizeType: JsValue,
    sampleSize: JsValue,
    sampleSizeColumn: JsValue,
    geneSetFile: JsValue,
    covarFile: JsValue,
    covariateFile: JsValue,
    email: JsValue,
    jobName: JsValue)

  /** Helpers from server/services/utils.js whose bodies are not part of this model: every
      property proved below holds whichever functions these are. */
  datatype Helpers = Helpers(stripExtension: string -> string, coalesceFilePaths: seq<string> -> Option<string>)

  /** `path.resolve(dir, segment)` for POSIX paths: an empty segment is ignored and an
      absolute one replaces the directory. */
  function Resolve(dir: string, segment: string): string
  {
    if segment == "" then dir else if segment[0] == '/' then segment else dir + "/" + segment
  }

  /** `path.parse(p).base`: the part after the last separator. */
  function BaseName(p: string): (r: string)
    ensures '/' !in r
  {
    match LastIndexOfChar(p, '/')
    case None => p
    case Some(i) => p[i + 1..]
  }

  /** A plain file name resolved under any directory keeps that name as its base name. */
  lemma BaseNameOfResolve(dir: string, name: string)
    requires name != "" && '/' !in name
    ensures BaseName(Resolve(dir, name)) == name
  {
    var p := dir + "/" + name;
    assert p[|dir|] == '/';
    assert p[|dir| + 1..] == name;
    assert '/' !in p[|dir| + 1..];
  }

  function HexValue(c: char): bool { '0' <= c <= '9' || 'a' <= c <= 'f' || 'A' <= c <= 'F' }

  /** `validator.isUUID` without a version: the 8-4-4-4-12 hexadecimal form of RFC 4122,
      letters in either case. */
  predicate IsUuid(s: string)
  {
    |s| == 36
    && forall i :: 0 <= i < 36 ==> if i in {8, 13, 18, 23} then s[i] == '-' else HexValue(s[i])
  }

  /** The TypeError that `path.resolve` (or `validator.isUUID`) raises when the named
      parameter is not a string. */
  datatype PathError = NotAString(parameter: string)

  datatype Paths = Paths(
    inputFolder: string,
    outputFolder: string,
    paramsFile: string,
    statusFile: string,
    manifestFile: string,
    snpLocFile: string,
    geneLocFile: Option<string>,
    geneAnnotFilePrefix: string,
    geneAnnotFile: string,
    bFile: string,
    pValFile: Option<string>,
    geneAnalysisFilePrefix: string,
    geneAnalysisFile: string,
    geneAnalysisRawFile: string,
    geneSetAnalysisFilePrefix: string,
    geneSetAnalysisFile: string,
    databaseFile: string)

  /** The first entry whose lower-cased name ends in ".bim" (`Array.prototype.find`). */
  function FindBim(files: seq<string>): (r: Option<nat>)
    ensures r.Some? ==> r.value < |files| && EndsWith(Lower(files[r.value]), ".bim")
    ensures r.Some? ==> forall j :: 0 <= j < r.value ==> !EndsWith(Lower(files[j]), ".bim")
    ensures r.None? ==> forall j :: 0 <= j < |files| ==> !EndsWith(Lower(files[j]), ".bim")
  {
    if files == [] then None
    else if EndsWith(Lower(files[0]), ".bim") then Some(0)
    else match FindBim(files[1..])
      case None => None
      case Some(i) => Some(i + 1)
  }

  function DefaultInputFolder(env: Env): string { Resolve(env.inputFolder, "default") }

  /** The SNP location (.bim) file: the uploaded reference file for population "other",
      otherwise `<input>/default/<pop>/<pop>.bim`. */
  function ResolveSnpLocFile(params: Params, env: Env, inputFolder: string): Result<string, PathError>
  {
    if params.snpPopulation == Str("other") then
      match params.referenceDataFiles
      case None => Failure(NotAString("referenceDataFiles"))
      case Some(files) =>
        match FindBim(files)
        case None => Failure(NotAString("referenceDataFiles"))
        case Some(i) => Success(Resolve(inputFolder, files[i]))
    else if params.snpPopulation.Str? then
      var pop := params.snpPopulation.s;
      Success(Resolve(Resolve(DefaultInputFolder(env), pop), pop + ".bim"))
    else Failure(NotAString("snpPopulation"))
  }

  /** The PLINK fileset prefix: from the SNP location file for reference data, otherwise
      from the first uploaded raw genotype file. */
  function ResolveBFile(params: Params, inputFolder: string, snpLocFile: string, h: Helpers): Result<string, PathError>
  {
    if params.genotypeDataSource == Str("referenceData") then Success(h.stripExtension(snpLocFile))
    else match params.rawGenotypeDataFiles
      case None => Failure(NotAString("rawGenotypeDataFiles"))
      case Some(files) =>
        if files == [] then Failure(NotAString("rawGenotypeDataFiles"))
        else Success(h.stripExtension(Resolve(inputFolder, files[0])))
  }

  /** The job-local path first, then the shared default, as `coalesceFilePaths` decides. */
  function Coalesced(name: string, inputFolder: string, env: Env, h: Helpers): Option<string>
  {
    h.coalesceFilePaths([Resolve(inputFolder, name), Resolve(DefaultInputFolder(env), name)])
  }

  /** A truthy `previousId` that is not a string makes `validator.isUUID` throw. */
  predicate PreviousIdThrows(params: Params) { Truthy(params.previousId) && !params.previousId.Str? }

  /** The copy `getPaths` starts (without awaiting it) from a previous job's input folder. */
  function CopiedInputs(params: Params, env: Env): Option<(string, string)>
  {
    if params.id.Str? && Truthy(params.previousId) && params.previousId.Str? && IsUuid(params.previousId.s)
    then Some((Resolve(env.inputFolder, params.previousId.s), Resolve(env.inputFolder, params.id.s)))
    else None
  }

  /** `getPaths`. */
  function GetPaths(params: Params, env: Env, h: Helpers): Result<Paths, PathError>
  {
    if !params.id.Str? then Failure(NotAString("id"))
    else
      var inputFolder := Resolve(env.inputFolder, params.id.s);
      var outputFolder := Resolve(env.outputFolder, params.id.s);
      if PreviousIdThrows(params) then Failure(NotAString("previousId"))
      else match ResolveSnpLocFile(params, env, inputFolder)
        case Failure(e) => Failure(e)
        case Success(snpLocFile) =>
          if !params.geneLocationFile.Str? then Failure(NotAString("geneLocationFile"))
          else
            var geneLocFile := Coalesced(params.geneLocationFile.s, inputFolder, env, h);
            match ResolveBFile(params, inputFolder, snpLocFile, h)
            case Failure(e) => Failure(e)
            case Success(bFile) =>
              if !params.snpPValuesFile.Str? then Failure(NotAString("snpPValuesFile"))
              else
                Success(Paths(
                  inputFolder := inputFolder,
                  outputFolder := outputFolder,
                  paramsFile := Resolve(inputFolder, "params.json"),
                  statusFile := Resolve(outputFolder, "status.json"),
                  manifestFile := Resolve(outputFolder, "manifest.json"),
                  snpLocFile := snpLocFile,
                  geneLocFile := geneLocFile,
                  geneAnnotFilePrefix := Resolve(outputFolder, "annotation"),
                  geneAnnotFile := Resolve(outputFolder, "annotation.genes.annot"),
                  bFile := bFile,
                  pValFile := Coalesced(params.snpPValuesFile.s, inputFolder, env, h),
                  geneAnalysisFilePrefix := Resolve(outputFolder, "gene_analysis"),
                  geneAnalysisFile := Resolve(outputFolder, "gene_analysis.genes.out"),
                  geneAnalysisRawFile := Resolve(outputFolder, "gene_analysis.genes.raw"),
                  geneSetAnalysisFilePrefix := Resolve(outputFolder, "gene_set_analysis"),
                  geneSetAnalysisFile := Resolve(outputFolder, "gene_set_analysis.gsa.out"),
                  databaseFile := Resolve(outputFolder, "results.db")))
  }

  /** `getPaths` fails exactly when one of the parameters it hands to `path.resolve` (or to
      `validator.isUUID`) is not a string; nothing about the id's content is checked. */
  lemma GetPathsFailsIff(params: Params, env: Env, h: Helpers)
    ensures GetPaths(params, env, h).Failure? <==>
      || !params.id.Str?
      || PreviousIdThrows(params)
      || (params.snpPopulation == Str("other") &&
            (params.referenceDataFiles.None? || FindBim(params.referenceDataFiles.value).None?))
      || (params.snpPopulation != Str("other") && !params.snpPopulation.Str?)
      || !params.geneLocationFile.Str?
      || (params.genotypeDataSource != Str("referenceData") &&
            (params.rawGenotypeDataFiles.None? || params.rawGenotypeDataFiles.value == []))
      || !params.snpPValuesFile.Str?
  {
  }

  /** The job id is never validated: whether `getPaths` succeeds does not depend on which
      string the id is. */
  lemma IdNotValidated(params: Params, env: Env, h: Helpers, a: string, b: string)
    ensures GetPaths(params.(id := Str(a)), env, h).Success? == GetPaths(params.(id := Str(b)), env, h).Success?
  {
    GetPathsFailsIff(params.(id := Str(a)), env, h);
    GetPathsFailsIff(params.(id := Str(b)), env, h);
  }

  /** Where the SNP location file and the PLINK prefix come from. */
  lemma SnpLocAndBFile(params: Params, env: Env, h: Helpers)
    requires GetPaths(params, env, h).Success?
    ensures var p := GetPaths(params, env, h).value;
      && (params.snpPopulation == Str("other") ==>
            var files := params.referenceDataFiles.value;
            var i := FindBim(files).value;
            && p.snpLocFile == Resolve(p.inputFolder, files[i])
            && EndsWith(Lower(files[i]), ".bim")
            && forall j :: 0 <= j < i ==> !EndsWith(Lower(files[j]), ".bim"))
      && (params.snpPopulation != Str("other") ==>
            var pop := params.snpPopulation.s;
            p.snpLocFile == Resolve(Resolve(Resolve(env.inputFolder, "default"), pop), pop + ".bim"))
      && (params.genotypeDataSource == Str("referenceData") ==> p.bFile == h.stripExtension(p.snpLocFile))
      && (params.genotypeDataSource != Str("referenceData") ==>
            p.bFile == h.stripExtension(Resolve(p.inputFolder, params.rawGenotypeDataFiles.value[0])))
  {
  }

  /** The keys of the `paths` object. */
  datatype PathKey =
    | InputFolder | OutputFolder | ParamsFile | StatusFile | ManifestFile | SnpLocFile
    | GeneLocFile | GeneAnnotFilePrefix | GeneAnnotFile | BFile | PValFile
    | GeneAnalysisFilePrefix | GeneAnalysisFile | GeneAnalysisRawFile
    | GeneSetAnalysisFilePrefix | GeneSetAnalysisFile | DatabaseFile

  const AllKeys: set<PathKey> := {
    InputFolder, OutputFolder, ParamsFile, StatusFile, ManifestFile, SnpLocFile,
    GeneLocFile, GeneAnnotFilePrefix, GeneAnnotFile, BFile, PValFile,
    GeneAnalysisFilePrefix, GeneAnalysisFile, GeneAnalysisRawFile,
    GeneSetAnalysisFilePrefix, GeneSetAnalysisFile, DatabaseFile}

  /** The property name of each key, spelled as in the source (`geneAnalyisFilePrefix`). */
  function KeyName(k: PathKey): string
  {
    match k
    case InputFolder => "inputFolder"
    case OutputFolder => "outputFolder"
    case ParamsFile => "paramsFile"
    case StatusFile => "statusFile"
    case ManifestFile => "manifestFile"
    case SnpLocFile => "snpLocFile"
    case GeneLocFile => "geneLocFile"
    case GeneAnnotFilePrefix => "geneAnnotFilePrefix"
    case GeneAnnotFile => "geneAnnotFile"
    case BFile => "bFile"
    case PValFile => "pValFile"
    case GeneAnalysisFilePrefix => "geneAnalyisFilePrefix"
    case GeneAnalysisFile => "geneAnalysisFile"
    case GeneAnalysisRawFile => "geneAnalysisRawFile"
    case GeneSetAnalysisFilePrefix => "geneSetAnalysisFilePrefix"
    case GeneSetAnalysisFile => "geneSetAnalysisFile"
    case DatabaseFile => "databaseFile"
  }

  /** The value stored under each key of `paths`; `None` stands for `undefined`. */
  function PathValue(p: Paths, k: PathKey): Option<string>
  {
    match k
    case InputFolder => Some(p.inputFolder)
    case OutputFolder => Some(p.outputFolder)
    case ParamsFile => Some(p.paramsFile)
    case StatusFile => Some(p.statusFile)
    case ManifestFile => Some(p.manifestFile)
    case SnpLocFile => Some(p.snpLocFile)
    case GeneLocFile => p.geneLocFile
    case GeneAnnotFilePrefix => Some(p.geneAnnotFilePrefix)
    case GeneAnnotFile => Some(p.geneAnnotFile)
    case BFile => Some(p.bFile)
    case PValFile => p.pValFile
    case GeneAnalysisFilePrefix => Some(p.geneAnalysisFilePrefix)
    case GeneAnalysisFile => Some(p.geneAnalysisFile)
    case GeneAnalysisRawFile => Some(p.geneAnalysisRawFile)
    case GeneSetAnalysisFilePrefix => Some(p.geneSetAnalysisFilePrefix)
    case GeneSetAnalysisFile => Some(p.geneSetAnalysisFile)
    case DatabaseFile => Some(p.databaseFile)
  }

  /** Only the gene-location and p-value paths can be missing. */
  lemma ValuePresent(p: Paths, k: PathKey)
    requires p.geneLocFile.Some? && p.pValFile.Some?
    ensures PathValue(p, k).Some?
  {
  }

  /** `mapValues(paths, v => path.parse(v).base)`: the manifest, or `None` when some value is
      `undefined` and `path.parse` throws. */
  function Manifest(p: Paths): (r: Option<map<PathKey, string>>)
    ensures r.Some? <==> p.geneLocFile.Some? && p.pValFile.Some?
    ensures r.Some? ==> r.value.Keys == AllKeys
  {
    if p.geneLocFile.None? || p.pValFile.None? then None
    else Some(map k | k in AllKeys :: ValuePresent(p, k); BaseName(PathValue(p, k).value))
  }

  /** Every key is one of the keys of `paths`. */
  lemma InAllKeys(k: PathKey)
    ensures k in AllKeys
  {
    match k
    case InputFolder =>
    case OutputFolder =>
    case ParamsFile =>
    case StatusFile =>
    case ManifestFile =>
    case SnpLocFile =>
    case GeneLocFile =>
    case GeneAnnotFilePrefix =>
    case GeneAnnotFile =>
    case BFile =>
    case PValFile =>
    case GeneAnalysisFilePrefix =>
    case GeneAnalysisFile =>
    case GeneAnalysisRawFile =>
    case GeneSetAnalysisFilePrefix =>
    case GeneSetAnalysisFile =>
    case DatabaseFile =>
  }

  /** Each manifest entry is the base name of the path under the same key. */
  lemma ManifestEntry(p: Paths, k: PathKey)
    requires Manifest(p).Some?
    ensures PathValue(p, k).Some?
    ensures k in Manifest(p).value && Manifest(p).value[k] == BaseName(PathValue(p, k).value)
  {
    ValuePresent(p, k);
    InAllKeys(k);
  }

  /** The fixed file name of each key that names a job file: every one except the two
      folders and the four inputs. */
  function FixedName(k: PathKey): Option<string>
  {
    match k
    case ParamsFile => Some("params.json")
    case StatusFile => Some("status.json")
    case ManifestFile => Some("manifest.json")
    case GeneAnnotFilePrefix => Some("annotation")
    case GeneAnnotFile => Some("annotation.genes.annot")
    case GeneAnalysisFilePrefix => Some("gene_analysis")
    case GeneAnalysisFile => Some("gene_analysis.genes.out")
    case GeneAnalysisRawFile => Some("gene_analysis.genes.raw")
    case GeneSetAnalysisFilePrefix => Some("gene_set_analysis")
    case GeneSetAnalysisFile => Some("gene_set_analysis.gsa.out")
    case DatabaseFile => Some("results.db")
    case _ => None
  }

  /** The folder a fixed-name file lives in: params.json in the input folder, the rest in
      the output folder. */
  function FolderOf(p: Paths, k: PathKey): string
  {
    if k == ParamsFile then p.inputFolder else p.outputFolder
  }

  /** Each fixed-name file of a job sits directly in its folder. */
  predicate FixedNamesUnder(p: Paths)
  {
    forall k :: FixedName(k).Some? ==> PathValue(p, k) == Some(Resolve(FolderOf(p, k), FixedName(k).value))
  }

  /** All paths of a job lie under `<input>/<id>` and `<output>/<id>`, with fixed names. */
  lemma GetPathsLayout(params: Params, env: Env, h: Helpers)
    requires GetPaths(params, env, h).Success?
    ensures var p := GetPaths(params, env, h).value;
      && p.inputFolder == Resolve(env.inputFolder, params.id.s)
      && p.outputFolder == Resolve(env.outputFolder, params.id.s)
      && FixedNamesUnder(p)
  {
  }

  /** Every fixed name is a plain, non-empty file name. */
  lemma FixedNamesArePlain(k: PathKey)
    requires FixedName(k).Some?
    ensures FixedName(k).value != "" && '/' !in FixedName(k).value
  {
  }

  /** The base name of a fixed-name file is its fixed name, whatever folder holds it. */
  lemma FixedNameBase(p: Paths, k: PathKey)
    requires FixedNamesUnder(p) && FixedName(k).Some?
    ensures PathValue(p, k).Some? && BaseName(PathValue(p, k).value) == FixedName(k).value
  {
    FixedNamesArePlain(k);
    BaseNameOfResolve(FolderOf(p, k), FixedName(k).value);
  }

  /** The manifest gives every fixed-name file its constant base name, whatever the job's
      id and folders are. */
  lemma ManifestFixedName(p: Paths, k: PathKey)
    requires FixedNamesUnder(p) && Manifest(p).Some? && FixedName(k).Some?
    ensures Manifest(p).value[k] == FixedName(k).value
  {
    ManifestEntry(p, k);
    FixedNameBase(p, k);
  }
}
