/** The legacy runner `runMagma` in server/services/analysis.js: it picks the MAGMA executable
    for the platform, creates the result folder when missing, and launches an annotation and
    then a gene analysis with argument lists built from the request. */
module LegacyAnalysis {

  import opened Wrappers
  import opened Strings
  import opened Js
  import opened MagmaPaths

  /** The executable for the platform, from the `if` chain; `None` is `undefined`. */
  function Executable(magmaDir: string, platform: string): (r: Option<string>)
    ensures r.Some? <==> platform in {"win32", "linux", "darwin"}
    ensures platform == "win32" ==> r == Some(Resolve(magmaDir, "magma_win.exe"))
    ensures platform == "linux" ==> r == Some(Resolve(magmaDir, "magma_linux"))
    ensures platform == "darwin" ==> r == Some(Resolve(magmaDir, "magma_mac"))
  {
    if platform == "win32" then Some(Resolve(magmaDir, "magma_win.exe"))
    else if platform == "linux" then Some(Resolve(magmaDir, "magma_linux"))
    else if platform == "darwin" then Some(Resolve(magmaDir, "magma_mac"))
    else None
  }

  /** The request fields the runner reads. */
  datatype Request = Request(
    requestId: string,
    snpLocFile: string,
    geneLocFile: string,
    analysisInput: string,
    sampleSizeOption: string,
    geneAnalysisFile: string,
    pvalFile: string,
    sampleSize: JsValue)

  /** `path.parse(p).name`: the base name without its extension, where the extension starts
      at the last dot unless that dot opens the name or the name is "..". */
  function ParseName(p: string): (r: string)
    ensures '/' !in r
  {
    var base := BaseName(p);
    match LastIndexOfChar(base, '.')
    case Some(k) => if k > 0 && base != ".." then base[..k] else base
    case None => base
  }

  /** A name with one extension parses to the name without it. */
  lemma ParseNameDropsExtension(stem: string, ext: string)
    requires stem != [] && stem[0] != '.' && '/' !in stem && '/' !in ext && '.' !in ext
    ensures ParseName(stem + "." + ext) == stem
  {
    var p := stem + "." + ext;
    assert p[|stem|] == '.';
    assert p[|stem| + 1..] == ext;
    assert '/' !in p by {
      forall i | 0 <= i < |p| ensures p[i] != '/' {
        if i < |stem| { assert p[i] == stem[i]; }
        else if i > |stem| { assert p[i] == ext[i - |stem| - 1]; }
      }
    }
    assert BaseName(p) == p;
    assert p[..|stem|] == stem;
    assert p != "..";
  }

  /** A path resolved against an absolute folder is absolute. */
  lemma ResolveAbsolute(dir: string, segment: string)
    requires dir != [] && dir[0] == '/'
    ensures var p := Resolve(dir, segment); p != [] && p[0] == '/'
  {
  }

  /** The executable, when there is one, sits in the MAGMA folder under the platform's name. */
  lemma ExecutableName(magmaDir: string, platform: string)
    requires Executable(magmaDir, platform).Some?
    ensures BaseName(Executable(magmaDir, platform).value) in {"magma_win.exe", "magma_linux", "magma_mac"}
  {
    if platform == "win32" {
      BaseNameOfResolve(magmaDir, "magma_win.exe");
    } else if platform == "linux" {
      BaseNameOfResolve(magmaDir, "magma_linux");
    } else {
      BaseNameOfResolve(magmaDir, "magma_mac");
    }
  }

  /** The annotation arguments. */
  function AnnotationArgs(inputDir: string, resultDir: string, req: Request): (r: seq<string>)
    ensures |r| == 7 && r[0] == "--annotate" && r[1] == "--snp-loc" && r[3] == "--gene-loc" && r[5] == "--out"
    ensures r[6] == Resolve(resultDir, "annotation")
    ensures r[2] == Resolve(Resolve(inputDir, req.requestId), req.snpLocFile)
    ensures r[4] == Resolve(Resolve(inputDir, req.requestId), req.geneLocFile)
  {
    ["--annotate",
     "--snp-loc", Resolve(Resolve(inputDir, req.requestId), req.snpLocFile),
     "--gene-loc", Resolve(Resolve(inputDir, req.requestId), req.geneLocFile),
     "--out", Resolve(resultDir, "annotation")]
  }

  /** The sample-size token: "N=" when the size was typed in, "ncol=" otherwise. */
  function SampleSizeToken(req: Request): string
  {
    (if req.sampleSizeOption == "input" then "N=" else "ncol=") + ToText(req.sampleSize)
  }

  /** The gene-analysis arguments: raw genotype data names the uploaded fileset as given;
      otherwise the fileset name loses its extension and the p-values file and sample size
      follow. */
  function GeneAnalysisArgs(inputDir: string, resultDir: string, req: Request): (r: seq<string>)
  {
    var requestDir := Resolve(inputDir, req.requestId);
    var tail := ["--gene-annot", Resolve(resultDir, "annotation.genes.annot.txt"),
                 "--out", Resolve(resultDir, "gene_analysis")];
    if req.analysisInput == "rawData" then
      ["--bfile", Resolve(requestDir, req.geneAnalysisFile)] + tail
    else
      ["--bfile", Resolve(requestDir, ParseName(req.geneAnalysisFile)),
       "--pval", Resolve(requestDir, req.pvalFile), SampleSizeToken(req)] + tail
  }

  /** The size token starts with "N=" exactly when the size was typed in, and with "ncol="
      exactly when it names a column. */
  lemma SampleSizeTokenPrefix(req: Request)
    ensures StartsWith(SampleSizeToken(req), "N=") <==> req.sampleSizeOption == "input"
    ensures StartsWith(SampleSizeToken(req), "ncol=") <==> req.sampleSizeOption != "input"
  {
    var t := SampleSizeToken(req);
    if req.sampleSizeOption == "input" {
      assert t[..2] == "N=";
      assert t[0] == 'N';
    } else {
      assert t[..5] == "ncol=";
      assert t[0] == 'n';
    }
  }

  /** Both forms end by reading the annotation output and writing `gene_analysis` in the
      result folder. */
  lemma GeneAnalysisArgsTail(inputDir: string, resultDir: string, req: Request)
    ensures var r := GeneAnalysisArgs(inputDir, resultDir, req);
      |r| >= 6 && r[0] == "--bfile"
      && r[|r| - 4..] == ["--gene-annot", Resolve(resultDir, "annotation.genes.annot.txt"),
                          "--out", Resolve(resultDir, "gene_analysis")]
  {
  }

  /** Raw genotype data: the uploaded fileset name as given, and no `--pval`. */
  lemma RawDataArgs(inputDir: string, resultDir: string, req: Request)
    requires inputDir != [] && inputDir[0] == '/' && resultDir != [] && resultDir[0] == '/'
    requires req.analysisInput == "rawData"
    ensures var r := GeneAnalysisArgs(inputDir, resultDir, req);
      |r| == 6 && r[1] == Resolve(Resolve(inputDir, req.requestId), req.geneAnalysisFile)
      && "--pval" !in r
  {
    var r := GeneAnalysisArgs(inputDir, resultDir, req);
    var requestDir := Resolve(inputDir, req.requestId);
    ResolveAbsolute(inputDir, req.requestId);
    ResolveAbsolute(requestDir, req.geneAnalysisFile);
    ResolveAbsolute(resultDir, "annotation.genes.annot.txt");
    ResolveAbsolute(resultDir, "gene_analysis");
    assert r[1][0] == '/' && r[3][0] == '/' && r[5][0] == '/';
    assert r == [r[0], r[1], r[2], r[3], r[4], r[5]];
  }

  /** Summary statistics: the fileset name without its extension, then `--pval` with the
      p-values file and the size token. */
  lemma StatisticsArgs(inputDir: string, resultDir: string, req: Request)
    requires req.analysisInput != "rawData"
    ensures var r := GeneAnalysisArgs(inputDir, resultDir, req);
      |r| == 9 && r[2] == "--pval"
      && r[1] == Resolve(Resolve(inputDir, req.requestId), ParseName(req.geneAnalysisFile))
      && r[3] == Resolve(Resolve(inputDir, req.requestId), req.pvalFile)
      && (StartsWith(r[4], "N=") <==> req.sampleSizeOption == "input")
      && (StartsWith(r[4], "ncol=") <==> req.sampleSizeOption != "input")
  {
    var requestDir := Resolve(inputDir, req.requestId);
    var head := ["--bfile", Resolve(requestDir, ParseName(req.geneAnalysisFile)),
                 "--pval", Resolve(requestDir, req.pvalFile), SampleSizeToken(req)];
    var tail := ["--gene-annot", Resolve(resultDir, "annotation.genes.annot.txt"),
                 "--out", Resolve(resultDir, "gene_analysis")];
    var r := GeneAnalysisArgs(inputDir, resultDir, req);
    assert r == head + tail;
    assert r[4] == SampleSizeToken(req);
    SampleSizeTokenPrefix(req);
  }

  /** The directories that exist, and the ones the runner created, in order. */
  class Folders {
    var existing: set<string>
    var created: seq<string>

    constructor(existing: set<string>)
      ensures this.existing == existing && created == []
    {
      this.existing := existing;
      created := [];
    }

    /** `if (!fs.existsSync(dir)) fs.mkdirSync(dir)`. */
    method EnsureFolder(dir: string)
      modifies this
      ensures existing == old(existing) + {dir}
      ensures created == old(created) + (if dir in old(existing) then [] else [dir])
    {
      if dir !in existing {
        existing := existing + {dir};
        created := created + [dir];
      }
    }
  }

  /** A process launch: the executable and its arguments. */
  datatype Launch = Launch(exec: string, args: seq<string>)

  /** `Launched` lists the calls in order; `execFile` refuses an undefined executable by
      throwing before any process starts. */
  datatype RunOutcome = Launched(calls: seq<Launch>) | ThrewBeforeLaunch

  /** `runMagma(req)`: the result folder is created first when it is missing; then, on a
      supported platform, the annotation is launched and then the gene analysis, with the
      same executable; on any other platform nothing is launched. */
  method RunMagma(folders: Folders, magmaDir: string, inputDir: string, outputFolder: string,
                  platform: string, req: Request)
    returns (out: RunOutcome)
    modifies folders
    ensures var resultDir := Resolve(outputFolder, req.requestId);
      && folders.existing == old(folders.existing) + {resultDir}
      && folders.created == old(folders.created) + (if resultDir in old(folders.existing) then [] else [resultDir])
      && (Executable(magmaDir, platform).None? ==> out == ThrewBeforeLaunch)
      && (Executable(magmaDir, platform).Some? ==>
            var exec := Executable(magmaDir, platform).value;
            out == Launched([Launch(exec, AnnotationArgs(inputDir, resultDir, req)),
                             Launch(exec, GeneAnalysisArgs(inputDir, resultDir, req))]))
  {
    var exec := Executable(magmaDir, platform);
    var resultDir := Resolve(outputFolder, req.requestId);
    folders.EnsureFolder(resultDir);
    if exec.None? {
      return ThrewBeforeLaunch;
    }
    var args := AnnotationArgs(inputDir, resultDir, req);
    var geneAnalysis := GeneAnalysisArgs(inputDir, resultDir, req);
    out := Launched([Launch(exec.value, args), Launch(exec.value, geneAnalysis)]);
  }
}
