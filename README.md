# GWAS target: a verified model of the MAGMA job driver and its helpers

This project models the core of the GWAS target web tool in Dafny. The tool runs the MAGMA
gene-analysis binary on a user's GWAS data. The model covers these parts:

- **The MAGMA job driver** (`server/services/magma.js`). It covers:
  - how `getPaths` derives every file path of a job;
  - the parameters and command-line argument list of each of the three MAGMA stages (annotation, gene analysis, gene-set analysis);
  - how `magma` picks the executable and filters the argument list;
  - the batch-then-merge plan of the gene analysis;
  - the sequence of effects and statuses `runMagma` produces, including the manifest;
  - the `isComplete` test that pollers use.

  Directory creation, JSON writes, processes, the database export and e-mails are effects appended to a trace. A `World` value decides which effects throw, and with what error.
- **The legacy runner** (`server/services/analysis.js`). It covers the executable chosen for each platform, the result folder, and the two argument lists it launches.
- **The analysis-form helpers** (`client/src/modules/analysis/analysis-form.utils.js`): `asFile`, `asFileList`, `getFileNames`, `isValidPlinkDataset` and `getChunkIndexes`.
- **The gene-mapping store** (`server/services/gene-mapping.js`). It covers the import of the Ensembl-ID to gene-symbol TSV in batches of 100, and the input guards of the three lookups.
- **The browser gene-mapping service** (`client/src/services/gene-mapping.js`). It covers the 404 handling of `getGeneSymbol` and the case-insensitive cache behind `getGeneSymbolCached` and `clearGeneMappingCache`.
- **The footer's build-string parser** (`client/src/modules/footer/footer.jsx`).
- **The environment check at server start** (`server/services/environment.js`).

Modules:
- `Wrappers`: Option and Result.
- `Strings`: ASCII case mapping, JavaScript white space and trim, split/join, decimal text.
- `Js`: loosely typed JavaScript values, truthiness, template-literal text, unary plus.
- `MagmaCli`: argv and executable.
- `MagmaPaths`: `getPaths` and the manifest.
- `MagmaStages`: the stage parameters and argument lists.
- `MagmaRun`: effects, rounds and `runMagma`.
- `MagmaRunProperties` and `MagmaOutcomes`: what a run guarantees.
- `LegacyAnalysis`, `AnalysisFormUtils`, `GeneMappingDb`, `GeneMappingClient`, `Footer`, `Environment`.

Where the code has a loop or mutable state, the model has one too:
- `MagmaRun.RunMagma`, `MagmaRun.ExecuteSteps` and `MagmaRun.RunRound`;
- `AnalysisFormUtils.AsFileList` and `AnalysisFormUtils.GetChunkIndexes`;
- `GeneMappingDb.ImportLines` and `GeneMappingDb.InitializeDatabase`;
- the classes `GeneMappingClient.GeneSymbolCache` and `LegacyAnalysis.Folders`.

Each of these is proved against a specification function, and the lemmas are about that function.

Where the code and the design it was written to disagree, the model follows the code:
- `runMagma` does not rethrow a stage error. It records FAILED and returns `false`.
- A COMPLETED status can be overwritten. The success e-mail is sent inside the `try` block, so if it throws, FAILED follows COMPLETED (`MagmaOutcomes.CompletedCanBeOverwritten`).
- The FAILED record carries `{ ...error }`. This holds only the error's own enumerable fields, not its message. For "Unsupported platform" it is therefore `{}`.
- The job id is never validated; only `previousId` is checked as a UUID.
- Uploaded inputs are not deleted after a successful run.
- A failure in `getPaths` happens before the `try` block and writes no status at all.
- A terminal status is not guaranteed to reach status.json. If the `catch` block's own FAILED write throws, the run rejects and status.json keeps what the `try` block left, possibly IN_PROGRESS; `waitUntilComplete` then polls forever (`MagmaOutcomes.StuckInProgress`). The model tells the statuses a run attempts (`Statuses`) from those that land (`Persisted`).

## Model

| member | source | states |
|---|---|---|
| MagmaCli.Argv | server/services/magma.js:114 | every argv token is non-empty: falsy entries are dropped after flattening one level |
| MagmaCli.ArgvAppend | server/services/magma.js:114 | the argv of concatenated argument lists is the concatenation of their argvs, so each group contributes its tokens in place |
| MagmaCli.ArgvOmitted | server/services/magma.js:114 | an optional entry that is falsy contributes no token |
| MagmaCli.ArgvOfTruthyGroup | server/services/magma.js:114 | a group of set values contributes each value, in order |
| MagmaCli.ArgvOfSingles | server/services/magma.js:114 | a list of set single values yields those values, in order |
| MagmaCli.Guarded | server/services/magma.js:179 | `a && b && [...]` is the group when both guards are truthy, otherwise a falsy single value |
| MagmaCli.ExecutableName | server/services/magma.js:106-107 | the name ends in ".exe" exactly on win32, and starts with "magma_enhanced" exactly for the "enhanced" type |
| MagmaCli.Magma | server/services/magma.js:104-115 | an executable missing from bin/ gives "Unsupported platform: <platform>" before anything runs; otherwise that executable runs with the filtered argv |
| MagmaPaths.BaseNameOfResolve | server/services/magma.js:25 | a plain file name resolved under any folder keeps that name as its base name |
| MagmaPaths.FindBim | server/services/magma.js:260 | the first entry whose lower-cased name ends in ".bim"; none when no entry does |
| MagmaPaths.GetPathsFailsIff | server/services/magma.js:240-283 | `getPaths` throws exactly when a value it hands to `path.resolve` or `isUUID` is not a string: the id, a non-string previousId, the population, no ".bim" among the reference files, the gene-location file, no raw genotype file, the p-values file |
| MagmaPaths.IdNotValidated | server/services/magma.js:241-244 | whether `getPaths` succeeds does not depend on which string the job id is |
| MagmaPaths.SnpLocAndBFile | server/services/magma.js:256-277 | snpLocFile is the first ".bim" upload under the job folder for population "other", else `<input>/default/<pop>/<pop>.bim`; bFile strips the extension of snpLocFile for reference data, else of the first raw upload |
| MagmaPaths.GetPathsLayout | server/services/magma.js:243-292 | input and output folders are `<root>/<id>`, and every fixed-name file (`params.json`, `status.json`, the manifest, the results) lies directly in its folder |
| MagmaPaths.FixedNamesArePlain | server/services/magma.js:245-292 | every fixed file name is non-empty and has no separator |
| MagmaPaths.FixedNameBase | server/services/magma.js:245-292 | the base name of each fixed-name path is its fixed name |
| MagmaPaths.Manifest | server/services/magma.js:23-26 | the manifest exists exactly when no path is `undefined`, and then has exactly the keys of `paths` |
| MagmaPaths.ManifestEntry | server/services/magma.js:25 | each manifest entry is the base name of the path under the same key |
| MagmaPaths.ManifestFixedName | server/services/magma.js:270-292 | the manifest records each fixed-name file under its constant name, whatever the id and roots |
| MagmaStages.PathValueOf | server/services/magma.js:265-268 | a resolved path is that string; a missing one is falsy |
| MagmaStages.GetAnnotationParams | server/services/magma.js:122-128 | the SNP locations, the gene locations and the annotation prefix come from the paths |
| MagmaStages.AnnotationArgv | server/services/magma.js:130-132 | with its three files set, the annotation runs with exactly `--annotate --snp-loc S --gene-loc G --out O` |
| MagmaStages.SampleSizeToken | server/services/magma.js:146-157 | the size token contains "=" |
| MagmaStages.GetGeneAnalysisParams | server/services/magma.js:134-161 | genesOnly is false exactly when geneSetFile or covarFile is truthy; when snpPValuesFile is truthy, pvalFile is the resolved p-value path and sampleSize the size token, and otherwise both are undefined |
| MagmaStages.ConstantSampleSize | server/services/magma.js:145-157 | a constant size written as a decimal integer reaches MAGMA as `N=<n>` |
| MagmaStages.ColumnSampleSize | server/services/magma.js:145-157 | a column size reaches MAGMA as `ncol=<column>` |
| MagmaStages.UnknownSampleSizeType | server/services/magma.js:146-157 | any other size type still gives a token, `undefined=undefined` |
| MagmaStages.CovariateFileIgnored | server/services/magma.js:135 | the form's `covariateFile` field plays no part; only `covarFile` is read |
| MagmaStages.BatchArgv | server/services/magma.js:175-183 | batch k of n passes `--batch k+1 n` followed by the arguments of the single analysis |
| MagmaStages.PvalArgv | server/services/magma.js:179-202 | `--pval file size` appears exactly when both the file and the size are set |
| MagmaStages.GenesOnlyArgv | server/services/magma.js:181-204 | `--genes-only` appears exactly when genesOnly holds |
| MagmaStages.MaxProcesses | server/services/magma.js:170 | the batch count is at most the CPU count and fits 2 GiB per process, and is the largest such count |
| MagmaStages.MaxProcessesIsGreatest | server/services/magma.js:170 | every count within both limits is at most the batch count |
| MagmaStages.GeneAnalysisRounds | server/services/magma.js:168-210 | off win32, one round of n batches and then a round with the merge alone; on win32, one round with one plain analysis |
| MagmaStages.ZeroBatchesStillMerge | server/services/magma.js:170-195 | with no CPU or under 2 GiB free, no batch runs but the merge still does |
| MagmaStages.GetGeneSetAnalysisParams | server/services/magma.js:213-220 | setFile and covarFile are always falsy, because `paths` has no such keys |
| MagmaStages.GeneSetArgv | server/services/magma.js:222-232 | the gene-set argv is only `--gene-results R --out O` |
| MagmaRun.IsCompleteIffTerminal | server/services/magma.js:318 | of the statuses written, exactly COMPLETED and FAILED satisfy `isComplete` |
| MagmaRun.StepFailure | server/services/magma.js:171 | a round rejects exactly when one of its calls fails, and with the error of a failing call |
| MagmaRun.ExecuteAppend | server/services/magma.js:19-83 | the second block of statements runs only when the first got through |
| MagmaRun.ExecuteSucceeds | server/services/magma.js:19-83 | a block that gets through starts every effect of every round |
| MagmaRun.ExecuteCleanOnly | server/services/magma.js:19-83 | a block that gets through met no refused call and no call that threw |
| MagmaRun.RunRound | server/services/magma.js:171-187 | a round starts every call and rejects with its first failure, as the specification function says |
| MagmaRun.ExecuteSteps | server/services/magma.js:19-83 | statements run in order until one throws, as the specification function says |
| MagmaRun.MagmaAction | server/services/magma.js:104-115 | a call is refused with "Unsupported platform" exactly when the executable is missing, else awaits the process |
| MagmaRun.Calls | server/services/magma.js:171-187 | a round has one `magma` call per argument list, in order |
| MagmaRun.PerformedCalls | server/services/magma.js:171-187 | with the executable present, a round starts one process per argument list, in order |
| MagmaRun.JobId | server/services/magma.js:14 | the status id is a truthy id, else "default" |
| MagmaRun.ManifestAction | server/services/magma.js:23-26 | the manifest write is refused with the `path.parse` TypeError exactly when a path is `undefined` |
| MagmaRun.RunMagma | server/services/magma.js:13-102 | the driver's trace and outcome are those of the specification function `Run` |
| MagmaRunProperties.ToolPlanOnlyCalls | server/services/magma.js:28-50 | the three stages start nothing but MAGMA processes |
| MagmaRunProperties.ToolInvocations | server/services/magma.js:28-50 | with the executable present: the annotation, then every batch and then the merge (one plain analysis on win32), then the gene-set analysis exactly when the job asks for it |
| MagmaRunProperties.GeneAnalysisInvocations | server/services/magma.js:163-211 | the gene analysis starts every batch before the merge, or one plain analysis on win32 |
| MagmaRunProperties.GeneSetInvocations | server/services/magma.js:43-50 | the gene-set stage starts one process exactly when the job names a gene-set or covariate file, and none otherwise |
| MagmaRunProperties.ZeroBatchesRunOnlyMerge | server/services/magma.js:170 | with zero batches the gene analysis is the merge alone |
| MagmaRunProperties.SetupPhase | server/services/magma.js:20-26 | a setup that gets through wrote the directories, params.json, IN_PROGRESS and the manifest, in that order, and started no process |
| MagmaRunProperties.FinishPhase | server/services/magma.js:52-62 | the finish starts the export without awaiting it and then writes COMPLETED; its trace is those two effects and its only status is COMPLETED |
| MagmaRunProperties.CatchPhase | server/services/magma.js:84-100 | the `catch` block writes exactly one status, FAILED with the error's own fields, and starts no process |
| MagmaRunProperties.SetupLands | server/services/magma.js:19-25 | the setup gets through only once its IN_PROGRESS write has landed |
| MagmaRunProperties.FinishLands | server/services/magma.js:52-62 | the finish fails exactly when its COMPLETED write throws, and otherwise lands COMPLETED |
| MagmaRunProperties.CatchLands | server/services/magma.js:84-89 | the `catch` block lands FAILED when that write does not throw; when it throws, the block rejects with its error and no status lands |
| MagmaRunProperties.TryStatuses | server/services/magma.js:19-83 | the `try` block writes nothing, IN_PROGRESS, or IN_PROGRESS then COMPLETED, and the last whenever it gets through |
| MagmaRunProperties.TryTrace | server/services/magma.js:19-62 | a COMPLETED write means the setup and all stages got through and their effects and the finish's come first; a `try` block that gets through performs exactly setup, stages, finish and the success e-mail when an address is given |
| MagmaRunProperties.TryLands | server/services/magma.js:19-78 | a `try` block that gets through has landed IN_PROGRESS and then COMPLETED |
| MagmaRunProperties.TryLandsNoFailure | server/services/magma.js:19-78 | whatever happens, no FAILED status lands within the `try` block |
| MagmaOutcomes.PathsFailureLeavesNoStatus | server/services/magma.js:15 | when `getPaths` throws, the run rejects with its error having written no status; only the copy of the inputs may have started |
| MagmaOutcomes.RunResolved | server/services/magma.js:13-102 | once the paths are known, the run is the copy, the `try` block, then the `catch` block when the `try` block failed |
| MagmaOutcomes.StatusSequence | server/services/magma.js:20-100 | statuses are IN_PROGRESS then COMPLETED on success; after a failure they end in FAILED with the error's fields, after nothing, IN_PROGRESS, or IN_PROGRESS and COMPLETED |
| MagmaOutcomes.LastStatusIsComplete | server/services/magma.js:318 | after `getPaths` succeeds, the last status the run attempts to write satisfies `isComplete`; whether that write lands is stated by the rows that follow |
| MagmaOutcomes.FinishedLands | server/services/magma.js:19-62 | a finished run has landed IN_PROGRESS and then COMPLETED in status.json, and nothing else |
| MagmaOutcomes.FailedLandsLast | server/services/magma.js:84-89 | after a failure, when the `catch` block's FAILED write does not throw, FAILED with the error's fields is the last status that lands, and `isComplete` accepts it |
| MagmaOutcomes.FailedWriteThrows | server/services/magma.js:84-89 | when that FAILED write throws, the run rejects and no FAILED status lands at all |
| MagmaOutcomes.StuckInProgress | server/services/magma.js:19-89 | if the setup gets through, a stage fails and the FAILED write throws, the run rejects with status.json holding IN_PROGRESS, which `waitUntilComplete` never accepts |
| MagmaOutcomes.StuckWhenStatusWritesThrow | server/services/magma.js:19-89 | when every status write throws, the run rejects and no status ever lands |
| MagmaOutcomes.ToolsThroughMeansInstalled | server/services/magma.js:104-113 | stages that got through imply the executable was present |
| MagmaOutcomes.CompletedOnlyAfterAllStages | server/services/magma.js:20-62 | COMPLETED in the trace means the setup, every MAGMA call of the three stages and the export start all came first, in that order |
| MagmaOutcomes.TryThrough | server/services/magma.js:19-77 | a `try` block that gets through did the setup, every MAGMA call, the finish and the success e-mail when an address is given |
| MagmaOutcomes.FinishedTrace | server/services/magma.js:13-83 | a run that returns its results did everything in order, and ran the gene-set stage exactly when the job named a gene-set or covariate file |
| MagmaOutcomes.TryFailsAtNotice | server/services/magma.js:61-77 | when nothing but e-mail can fail, the manifest is written, the executable is present and an address is given, the `try` block ends with the success e-mail's outcome, after IN_PROGRESS and COMPLETED |
| MagmaOutcomes.CatchThrough | server/services/magma.js:84-100 | the `catch` block gets through when only the success e-mail can fail |
| MagmaOutcomes.CompletedCanBeOverwritten | server/services/magma.js:61-100 | if only the success e-mail fails, COMPLETED is followed by FAILED and the run returns `false` |
| LegacyAnalysis.Executable | server/services/analysis.js:17-27 | `magma_win.exe` on win32, `magma_linux` on linux, `magma_mac` on darwin, undefined on any other platform |
| LegacyAnalysis.ExecutableName | server/services/analysis.js:19-27 | the chosen executable's base name is one of the three platform names |
| LegacyAnalysis.ParseName | server/services/analysis.js:75 | `path.parse(p).name` has no separator |
| LegacyAnalysis.ParseNameDropsExtension | server/services/analysis.js:75 | a name with one extension parses to the name without it |
| LegacyAnalysis.AnnotationArgs | server/services/analysis.js:36-44 | the annotation argv is exactly `--annotate --snp-loc <in/id/snp> --gene-loc <in/id/gene> --out <out/id/annotation>` |
| LegacyAnalysis.SampleSizeTokenPrefix | server/services/analysis.js:68-78 | the token starts with "N=" exactly when the size was typed in, and with "ncol=" otherwise |
| LegacyAnalysis.GeneAnalysisArgsTail | server/services/analysis.js:58-83 | both forms start with `--bfile` and end by reading `annotation.genes.annot.txt` and writing `gene_analysis` in the result folder |
| LegacyAnalysis.RawDataArgs | server/services/analysis.js:56-65 | raw data uses the uploaded name as given, and has no `--pval` |
| LegacyAnalysis.StatisticsArgs | server/services/analysis.js:67-83 | otherwise the name loses its extension, and `--pval <in/id/pval>` and the size token follow |
| LegacyAnalysis.Folders.EnsureFolder | server/services/analysis.js:31-33 | the folder exists afterwards, and it is created only if it was missing |
| LegacyAnalysis.RunMagma | server/services/analysis.js:11-95 | the result folder is ensured first; on a supported platform the annotation and then the gene analysis are launched with the same executable; otherwise the runner throws before any launch |
| AnalysisFormUtils.AsFile | client/src/modules/analysis/analysis-form.utils.js:28-44 | a File is kept; a non-empty string becomes an empty text file of that name; an object with name and contents becomes a file of them; anything else gives null |
| AnalysisFormUtils.MadeFilesAreNamed | client/src/modules/analysis/analysis-form.utils.js:31-40 | a file made from a string or an object has a non-empty name |
| AnalysisFormUtils.ConvertedAppend | client/src/modules/analysis/analysis-form.utils.js:17-19 | converting two lists converts each in turn |
| AnalysisFormUtils.AsFileList | client/src/modules/analysis/analysis-form.utils.js:8-26 | a FileList comes back as it is; otherwise the items (a non-array wrapped in one) are converted in order, nulls dropped |
| AnalysisFormUtils.ConvertedFiles | client/src/modules/analysis/analysis-form.utils.js:17-19 | files pass through the conversion unchanged |
| AnalysisFormUtils.ConvertedNames | client/src/modules/analysis/analysis-form.utils.js:17-35 | non-empty names become files with those names, in order |
| AnalysisFormUtils.GetFileNames | client/src/modules/analysis/analysis-form.utils.js:56-63 | a FileList of one file gives its name, any other FileList its names in order, any other value itself |
| AnalysisFormUtils.NamesRoundTrip | client/src/modules/analysis/analysis-form.utils.js:8-63 | stored names (not exactly one) come back from the file list built from them |
| AnalysisFormUtils.OneNameRoundTrip | client/src/modules/analysis/analysis-form.utils.js:8-63 | a single stored name comes back as that name |
| AnalysisFormUtils.StripLastExtension | client/src/modules/analysis/analysis-form.utils.js:50 | the name is unchanged, or it loses exactly a last ".ext" with no further dot |
| AnalysisFormUtils.IsValidPlinkDataset | client/src/modules/analysis/analysis-form.utils.js:46-54 | a rejection always carries the message "Please choose a valid set of .bed, .bim, and .fam files" |
| AnalysisFormUtils.PlinkValidIff | client/src/modules/analysis/analysis-form.utils.js:46-54 | null or empty is accepted; a non-empty set is accepted exactly when it has a .bed, a .bim and a .fam name (any case) and all names agree without their last extension |
| AnalysisFormUtils.PlinkOrderIndependent | client/src/modules/analysis/analysis-form.utils.js:48-53 | the verdict does not depend on the order of the files |
| AnalysisFormUtils.GetChunkIndexes | client/src/modules/analysis/analysis-form.utils.js:71-77 | the loop's pairs are those of the specification function |
| AnalysisFormUtils.NoChunksWhenEmpty | client/src/modules/analysis/analysis-form.utils.js:73 | a total size of zero or less gives no chunks |
| AnalysisFormUtils.ChunksShape | client/src/modules/analysis/analysis-form.utils.js:71-77 | from any start below the total (0 in `getChunkIndexes`), chunks follow without gap, are non-empty and at most chunkSize long, end at the total, and there are ceil((total - start)/chunkSize) of them |
| AnalysisFormUtils.ChunksCover | client/src/modules/analysis/analysis-form.utils.js:71-77 | every offset below the total lies in exactly one chunk |
| AnalysisFormUtils.ChunkLoopStalls | client/src/modules/analysis/analysis-form.utils.js:73-75 | with a chunk size that is not positive and a positive total, every round pushes a pair and the start never grows, so the loop never ends |
| GeneMappingDb.ParseLineColumns | server/services/gene-mapping.js:151-157 | a line of tab-free columns gives the row (ID trimmed and upper-cased, symbol trimmed) of its first two columns when both are non-empty, and nothing otherwise |
| GeneMappingDb.ExtraColumnsIgnored | server/services/gene-mapping.js:151 | columns after the second never change what a line yields |
| GeneMappingDb.ParsedNormalised | server/services/gene-mapping.js:154-157 | a parsed row has an ID with no lower-case letter and a trimmed symbol |
| GeneMappingDb.OnlyFirstLineIsHeader | server/services/gene-mapping.js:138-149 | only the first line can be skipped as a header, exactly when its lower-case form mentions "ensembl" or "gene"; every later line is parsed |
| GeneMappingDb.RowsOfAppend | server/services/gene-mapping.js:141-166 | the rows of two runs of lines are the rows of each, in order |
| GeneMappingDb.ImportedRowsNormalised | server/services/gene-mapping.js:154-157 | every imported row is normalised |
| GeneMappingDb.ImportStep | server/services/gene-mapping.js:141-157 | one line adds nothing when it is a skipped header or not a data line, and its row otherwise |
| GeneMappingDb.ImportLines | server/services/gene-mapping.js:135-172 | the batches concatenate to the imported rows in file order; all but the last hold exactly 100, the last 1 to 100; there are ceil(rows/100) batches, and `inserted` is the row count |
| GeneMappingDb.ReplayInserts | server/services/gene-mapping.js:118-172 | dropping, creating and inserting the batches leaves a table of exactly their rows, whatever was there before |
| GeneMappingDb.InitializeDatabase | server/services/gene-mapping.js:109-182 | a missing TSV throws "TSV file not found: <path>" before the table is touched; otherwise drop and create come first, every insert has 1 to 100 rows, and the table ends holding the imported rows |
| GeneMappingDb.GetGeneSymbol | server/services/gene-mapping.js:12-33 | throws the "database not found" message exactly when the database is missing; otherwise queries the ID upper-cased |
| GeneMappingDb.GetGeneSymbolsBatch | server/services/gene-mapping.js:40-65 | throws exactly when the database is missing; otherwise `[]` without a query for a non-array or empty list, else queries every ID upper-cased |
| GeneMappingDb.SearchGeneMappings | server/services/gene-mapping.js:73-102 | throws exactly when the database is missing; otherwise `[]` for a missing or blank query, else `%<QUERY>%` against either column with the given limit or 50 |
| GeneMappingDb.LookupIgnoresCase | server/services/gene-mapping.js:23 | IDs equal up to case give the same lookup |
| GeneMappingDb.MissingDatabaseFirst | server/services/gene-mapping.js:13-76 | without the database every lookup throws, whatever its arguments |
| GeneMappingClient.GetGeneSymbol | client/src/services/gene-mapping.js:11-22 | the response body on success, null for a 404, and any other error rethrown unchanged |
| GeneMappingClient.CacheKey | client/src/services/gene-mapping.js:114 | the key equals the ID up to case and has no lower-case letter |
| GeneMappingClient.SameKeyIgnoringCase | client/src/services/gene-mapping.js:114 | two IDs share a cache entry exactly when they are equal up to case |
| GeneMappingClient.StepMeaning | client/src/services/gene-mapping.js:113-128 | a hit answers from the cache unchanged; a miss answers what the request gives, stores a success (a 404's null included), stores no error, and changes no other entry |
| GeneMappingClient.SecondLookupHits | client/src/services/gene-mapping.js:116-123 | after a successful lookup, the same ID in any case is answered from the cache, whatever a new request would give |
| GeneMappingClient.FailureNotCached | client/src/services/gene-mapping.js:124-127 | a failed lookup leaves the cache as it was, so the next lookup asks again |
| GeneMappingClient.GeneSymbolCache.Lookup | client/src/services/gene-mapping.js:113-128 | a hit sends no request and changes nothing; a miss sends one request and updates the cache as the specification function says |
| GeneMappingClient.GeneSymbolCache.Clear | client/src/services/gene-mapping.js:133-135 | no entry remains, so the next lookup of any ID asks again |
| Footer.RunLength | client/src/modules/footer/footer.jsx:7 | a greedy `\d+` takes a run of digits that stops at the end or before a non-digit |
| Footer.TripleEndSound | client/src/modules/footer/footer.jsx:7 | a match of the version pattern covers digits, a dot, digits, a dot, digits, and stops before a non-digit |
| Footer.TripleEndComplete | client/src/modules/footer/footer.jsx:7 | wherever that shape starts, the pattern matches there and takes the third run whole |
| Footer.FindVersion | client/src/modules/footer/footer.jsx:7 | the match found is the leftmost one |
| Footer.FindDate | client/src/modules/footer/footer.jsx:11 | the date found is the leftmost run of eight digits |
| Footer.ParseVersionAndDate | client/src/modules/footer/footer.jsx:5-17 | a missing or empty string gives "dev" and today; otherwise version and date are read from the string independently |
| Footer.DashedRoundTrip | client/src/modules/footer/footer.jsx:12-13 | eight digits sliced 4/2/2 with dashes form an ISO 8601 date, and removing the dashes gives them back |
| Footer.DateIsIsoOrToday | client/src/modules/footer/footer.jsx:11-14 | the date shown is today or an ISO date whose digits are an eight-digit run of the string |
| Footer.VersionAtStart | client/src/modules/footer/footer.jsx:7-8 | a string that starts with a version shows it, with "_dev" when that follows immediately |
| Footer.NoVersionMeansDev | client/src/modules/footer/footer.jsx:8 | a string with no version in it shows "dev" |
| Environment.FirstMissing | server/services/environment.js:4-8 | no position when every key is set; otherwise the first key that is unset or empty |
| Environment.ValidateEnvironment | server/services/environment.js:1-9 | it passes exactly when every required key (the default list when none is given) is set and non-empty; otherwise it throws "Missing environment variable: KEY." for the first missing key |
| Environment.DefaultsRequired | server/services/environment.js:1 | with no argument, the six variables APP_NAME, API_PORT, INPUT_FOLDER, OUTPUT_FOLDER, MAGMA and DATA_BUCKET must be set |
| Environment.OnlyRequiredKeysMatter | server/services/environment.js:4-8 | only whether the required keys are set matters |
| Environment.MoreVariablesStillPass | server/services/environment.js:4-8 | setting more variables never makes the check fail |
| Js.NumberTextRoundTrip | server/services/magma.js:152-157 | a number turned into text and read back with unary plus is the same number |
| Strings.SplitJoinInverse | server/services/gene-mapping.js:151 | splitting columns joined by a separator they do not contain gives the columns back |
| Strings.UpperMeaning | server/services/gene-mapping.js:155 | upper-casing keeps a string equal up to case and leaves no lower-case letter |

## Left out

- Case mapping is ASCII only. `toUpperCase`, `toLowerCase` and the `/i` flag also map non-ASCII letters. The header test is exact for the words it looks for.
- Paths are POSIX. `path.resolve` normalisation of "." and ".." segments and of trailing separators is not modelled, and neither is the resolution of relative roots against the working directory.
- `path.join` on win32 is modelled by its separator only.
- readline's splitting of the TSV into lines is not modelled: the import takes the lines as given.
- The SQLite engine is not modelled:
  - the primary-key constraint (a duplicate ID makes an insert throw);
  - the evaluation of `LIKE`;
  - query errors;
  - closing connections.

  Lookups are modelled up to the query they hand to the database.
- The axios and network layer is not modelled; only the reply (a body, an error status, or no response) is.
- `encodeURIComponent` of the ID in the request URL is not modelled.
- Two concurrent cached lookups of one key can both fetch; the model runs lookups one at a time.
- Not modelled:
  - the logger;
  - the clock (the submitted and execution times);
  - the e-mail bodies and token substitution (only the recipient, subject and template are);
  - the result objects `runMagma` returns.
- `Promise.all` starts a round's calls together. The model records them in index order, and the round rejects with the first failing call in that order, where the real rejection is whichever fails first in time.
- `runMagma`'s `env` argument feeds only the success e-mail's results URL, which is not modelled. `getPaths` is called without it and reads `process.env`, which the model's `Env` stands for.
- `copyFiles` and `createDatabaseFromFiles` are not awaited. They are modelled as started effects that never make the run fail.
- MagmaRun.RunMagma: a synchronous throw from `createDatabaseFromFiles` is not modelled, because database.js is not part of this model.
- The bodies of `stripExtension`, `coalesceFilePaths`, `copyFiles`, `readJson`/`writeJson`, `execFileAsync`, `sendNotification` and `createDatabaseFromFiles` are not modelled. The first two are arbitrary functions that every lemma quantifies over; the others appear as effects.
- The MAGMA statistics, process exit codes and output are not modelled.
- `waitUntilComplete`'s polling loop and sleeps are left out; only its `isComplete` test is modelled.
- `checkStatus` is left out.
- MagmaStages.ConstantSampleSize: the sample size is an integer. Unary plus on fractions, exponents and other JavaScript number syntax is not modelled, and any other text reads as NaN.
- AnalysisFormUtils.GetChunkIndexes requires a positive chunk size when the total is positive. The source has no guard and loops forever otherwise (`AnalysisFormUtils.ChunkLoopStalls`); its only caller passes the default of 1e8.
- File objects are modelled by their parts, name, type and `lastModified`. `File`'s lower-casing of the type and its conversion of a `Date` to milliseconds are not modelled.
- A PLINK entry is a `File` or a string name; other values, which `replace` would reject, are not modelled.
- Keys inherited through `Object.prototype` (for example a sample-size type of "toString") are not modelled.
- The legacy runner's callbacks for `execFile`, and the processes it starts, are not modelled. Its two launches are recorded in order.
- `mkdirSync` failing when the output root is missing is not modelled.
- The legacy runner reads `analysisInput.value` and `sampleSizeOption.value`. The model's request carries those two values directly, so a missing object that would make the field access throw is not modelled.
- The React components, the `useGeneSymbol` hook, `getGeneSymbolsBatch` in the browser service and the chunked upload functions are UI and network code, and are left out.
