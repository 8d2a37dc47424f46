/** The gene-mapping store in server/services/gene-mapping.js: the import of an Ensembl-ID to
    gene-symbol TSV file into the `gene_mappings` table, and the guards and key normalisation
    of the three lookups in front of the query engine. */
module GeneMappingDb {

  import opened Wrappers
  import opened Strings

  // ---------------------------------------------------------------- one line

  /** A `gene_mappings` row. */
  datatype Row = Row(ensemblId: string, geneSymbol: string)

  /** A stored ID has no lower-case letter and a stored symbol has no white space around it. */
  predicate Normalised(row: Row)
  {
    IsUpper(row.ensemblId) && Trim(row.geneSymbol) == row.geneSymbol
  }

  /** The first line is taken as a header when its lower-case form mentions "ensembl" or
      "gene". */
  predicate IsHeader(line: string)
  {
    Contains(Lower(line), "ensembl") || Contains(Lower(line), "gene")
  }

  /** The first two tab-separated fields are both there and non-empty. */
  predicate DataFields(fields: seq<string>)
  {
    |fields| >= 2 && fields[0] != "" && fields[1] != ""
  }

  /** `const [ensemblId, geneSymbol] = line.split('\t')`: a row when both are non-empty, with
      the ID trimmed and upper-cased and the symbol trimmed. */
  function ParseLine(line: string): Option<Row>
  {
    var fields := Split(line, '\t');
    if DataFields(fields) then Some(Row(Upper(Trim(fields[0])), Trim(fields[1]))) else None
  }

  /** A line made of tab-free columns gives the row of its first two columns when both are
      non-empty, and nothing otherwise; further columns are ignored. Every line is made of
      the columns `split` gives it (`Strings.SplitJoin`), so this describes every line. */
  lemma ParseLineColumns(columns: seq<string>)
    requires |columns| >= 1 && forall k :: 0 <= k < |columns| ==> '\t' !in columns[k]
    ensures ParseLine(Join(columns, '\t')) ==
      if |columns| >= 2 && columns[0] != "" && columns[1] != ""
      then Some(Row(Upper(Trim(columns[0])), Trim(columns[1])))
      else None
  {
    SplitJoinInverse(columns, '\t');
  }

  /** Columns after the second never change what a line yields. */
  lemma ExtraColumnsIgnored(columns: seq<string>, extra: seq<string>)
    requires |columns| >= 2
    requires forall k :: 0 <= k < |columns| ==> '\t' !in columns[k]
    requires forall k :: 0 <= k < |extra| ==> '\t' !in extra[k]
    ensures ParseLine(Join(columns + extra, '\t')) == ParseLine(Join(columns, '\t'))
  {
    var all := columns + extra;
    assert all[0] == columns[0] && all[1] == columns[1];
    assert forall k :: 0 <= k < |all| ==> '\t' !in all[k] by {
      forall k | 0 <= k < |all| ensures '\t' !in all[k] {
        if k >= |columns| {
          assert all[k] == extra[k - |columns|];
        }
      }
    }
    ParseLineColumns(all);
    ParseLineColumns(columns);
  }

  /** A parsed row is normalised. */
  lemma ParsedNormalised(line: string)
    ensures ParseLine(line).Some? ==> Normalised(ParseLine(line).value)
  {
    var fields := Split(line, '\t');
    if DataFields(fields) {
      UpperMeaning(Trim(fields[0]));
      TrimIdempotent(fields[1]);
    }
  }

  // ---------------------------------------------------------------- the whole file

  function LineRows(line: string): seq<Row>
  {
    match ParseLine(line)
    case None => []
    case Some(row) => [row]
  }

  /** The rows of data lines, in file order. */
  function RowsOf(lines: seq<string>): seq<Row>
  {
    if lines == [] then [] else RowsOf(lines[..|lines| - 1]) + LineRows(lines[|lines| - 1])
  }

  /** The rows an import stores: a first line that looks like a header is skipped, every
      other line is data. */
  function ImportedRows(lines: seq<string>): seq<Row>
  {
    if lines != [] && IsHeader(lines[0]) then RowsOf(lines[1..]) else RowsOf(lines)
  }

  lemma {:induction false} RowsOfAppend(a: seq<string>, b: seq<string>)
    ensures RowsOf(a + b) == RowsOf(a) + RowsOf(b)
    decreases |b|
  {
    if b != [] {
      var last := |b| - 1;
      assert (a + b)[..|a + b| - 1] == a + b[..last];
      RowsOfAppend(a, b[..last]);
    } else {
      assert a + b == a;
    }
  }

  lemma EmptyPrefix<T>(s: seq<T>)
    ensures [] + s == s
  {
  }

  lemma TailOfCons<T>(x: T, xs: seq<T>)
    ensures ([x] + xs)[1..] == xs && [x][..0] == []
  {
  }

  /** Only the first line can be a header: every later line is parsed as data, even one
      that mentions "gene". */
  lemma OnlyFirstLineIsHeader(first: string, rest: seq<string>)
    ensures ImportedRows([first] + rest) ==
      (if IsHeader(first) then [] else LineRows(first)) + RowsOf(rest)
  {
    TailOfCons(first, rest);
    RowsOfAppend([first], rest);
    EmptyPrefix(LineRows(first));
    EmptyPrefix(RowsOf(rest));
  }

  lemma {:induction false} RowsOfNormalised(lines: seq<string>)
    ensures forall row :: row in RowsOf(lines) ==> Normalised(row)
  {
    if lines != [] {
      RowsOfNormalised(lines[..|lines| - 1]);
      ParsedNormalised(lines[|lines| - 1]);
    }
  }

  /** Every imported row is normalised. */
  lemma ImportedRowsNormalised(lines: seq<string>)
    ensures forall row :: row in ImportedRows(lines) ==> Normalised(row)
  {
    if lines != [] && IsHeader(lines[0]) {
      RowsOfNormalised(lines[1..]);
    } else {
      RowsOfNormalised(lines);
    }
  }

  // ---------------------------------------------------------------- the import loop

  /** Rows are inserted this many at a time. */
  const BatchSize: nat := 100

  /** The batches, one after another. */
  function Concat<T>(batches: seq<seq<T>>): seq<T>
  {
    if batches == [] then [] else Concat(batches[..|batches| - 1]) + batches[|batches| - 1]
  }

  lemma Slices<T>(s: seq<T>, i: nat)
    requires 0 < i <= |s|
    ensures s[..i][..i - 1] == s[..i - 1] && s[..i][i - 1] == s[i - 1]
    ensures s[..i][1..] == s[1..][..i - 1] && s[..i][0] == s[0]
    ensures i > 1 ==> s[1..][i - 2] == s[i - 1]
  {
  }

  lemma NoneAdded<T>(s: seq<T>)
    ensures s + [] == s && s[..|s|] == s
  {
  }

  lemma Front<T>(a: T, b: T, rest: seq<T>)
    ensures ([a, b] + rest)[..2] == [a, b]
  {
  }

  /** One more line adds its own rows. */
  lemma RowsStep(lines: seq<string>, i: nat)
    requires i < |lines|
    ensures RowsOf(lines[..i + 1]) == RowsOf(lines[..i]) + LineRows(lines[i])
  {
    Slices(lines, i + 1);
  }

  /** The rows line `i` adds: none for a header in first position, else its own. */
  function Added(lines: seq<string>, i: nat): seq<Row>
    requires i < |lines|
  {
    if i == 0 && IsHeader(lines[0]) then [] else LineRows(lines[i])
  }

  lemma FirstLineStep(lines: seq<string>)
    requires 0 < |lines|
    ensures ImportedRows(lines[..1]) == ImportedRows(lines[..0]) + Added(lines, 0)
  {
    Slices(lines, 1);
    RowsStep(lines, 0);
    EmptyPrefix(LineRows(lines[0]));
    EmptyPrefix(Added(lines, 0));
  }

  lemma LaterLineStep(lines: seq<string>, i: nat)
    requires 0 < i < |lines|
    ensures ImportedRows(lines[..i + 1]) == ImportedRows(lines[..i]) + Added(lines, i)
  {
    Slices(lines, i + 1);
    Slices(lines, i);
    if IsHeader(lines[0]) {
      RowsStep(lines[1..], i - 1);
      assert ImportedRows(lines[..i + 1]) == RowsOf(lines[1..][..i]);
      assert ImportedRows(lines[..i]) == RowsOf(lines[1..][..i - 1]);
    } else {
      RowsStep(lines, i);
    }
  }

  /** What one line adds to the imported rows: nothing for a skipped header or a line that
      is not data, else its row. */
  lemma ImportStep(lines: seq<string>, i: nat)
    requires i < |lines|
    ensures (i == 0 && IsHeader(lines[0])) || ParseLine(lines[i]).None? ==>
      ImportedRows(lines[..i + 1]) == ImportedRows(lines[..i])
    ensures !(i == 0 && IsHeader(lines[0])) && ParseLine(lines[i]).Some? ==>
      ImportedRows(lines[..i + 1]) == ImportedRows(lines[..i]) + [ParseLine(lines[i]).value]
  {
    if i == 0 {
      FirstLineStep(lines);
    } else {
      LaterLineStep(lines, i);
    }
    NoneAdded(ImportedRows(lines[..i]));
  }

  lemma Pushed<T>(done: seq<T>, batch: seq<T>, before: seq<T>, x: T)
    requires done + batch == before
    ensures done + (batch + [x]) == before + [x]
  {
  }

  /** Every batch holds exactly `BatchSize` rows. */
  predicate AllFull<T>(batches: seq<seq<T>>)
  {
    forall k :: 0 <= k < |batches| ==> |batches[k]| == BatchSize
  }

  /** Flushing a full batch keeps every batch full and the rows in order. */
  lemma Flushed<T>(batches: seq<seq<T>>, batch: seq<T>)
    requires AllFull(batches) && |batch| == BatchSize
    requires |Concat(batches)| == BatchSize * |batches|
    ensures Concat(batches + [batch]) + [] == Concat(batches) + batch
    ensures AllFull(batches + [batch])
    ensures |Concat(batches + [batch])| == BatchSize * |batches + [batch]|
  {
    assert (batches + [batch])[..|batches|] == batches;
  }

  /** The batches after the final flush: all but the last full, the last non-empty, as many
      as the rows need. */
  lemma Closed<T>(batches: seq<seq<T>>, batch: seq<T>)
    requires AllFull(batches) && |batch| < BatchSize
    requires |Concat(batches)| == BatchSize * |batches|
    ensures var out := if |batch| > 0 then batches + [batch] else batches;
      && Concat(out) == Concat(batches) + batch
      && (forall k :: 0 <= k < |out| - 1 ==> |out[k]| == BatchSize)
      && (out != [] ==> 0 < |out[|out| - 1]| <= BatchSize)
      && |out| == (|Concat(batches) + batch| + BatchSize - 1) / BatchSize
  {
    NoneAdded(Concat(batches));
    if |batch| > 0 {
      assert (batches + [batch])[..|batches|] == batches;
    }
  }

  /** The loop of `initializeGeneMappingDatabase` over the file's lines: the batches it
      inserts, in order, and the final `inserted` count. The stored rows are exactly the
      imported rows in file order; every batch but the last holds exactly `BatchSize` rows,
      the last holds between one and `BatchSize`. */
  method ImportLines(lines: seq<string>) returns (batches: seq<seq<Row>>, inserted: nat)
    ensures Concat(batches) == ImportedRows(lines)
    ensures forall k :: 0 <= k < |batches| - 1 ==> |batches[k]| == BatchSize
    ensures batches != [] ==> 0 < |batches[|batches| - 1]| <= BatchSize
    ensures |batches| == (|ImportedRows(lines)| + BatchSize - 1) / BatchSize
    ensures inserted == |ImportedRows(lines)|
  {
    batches := [];
    var batch: seq<Row> := [];
    var lineNumber := 0;
    var isFirstLine := true;
    inserted := 0;
    var i := 0;
    while i < |lines|
      invariant i <= |lines| && lineNumber == i
      invariant isFirstLine <==> i == 0
      invariant Concat(batches) + batch == ImportedRows(lines[..i])
      invariant AllFull(batches) && |batch| < BatchSize
      invariant inserted == |Concat(batches)| == BatchSize * |batches|
    {
      var line := lines[i];
      lineNumber := lineNumber + 1;
      ImportStep(lines, i);
      if isFirstLine && IsHeader(line) {
        isFirstLine := false;
      } else {
        isFirstLine := false;
        var parsed := ParseLine(line);
        if parsed.Some? {
          Pushed(Concat(batches), batch, ImportedRows(lines[..i]), parsed.value);
          batch := batch + [parsed.value];
          if |batch| >= BatchSize {
            Flushed(batches, batch);
            batches := batches + [batch];
            inserted := inserted + |batch|;
            batch := [];
          }
        }
      }
      i := i + 1;
    }
    NoneAdded(lines);
    Closed(batches, batch);
    if |batch| > 0 {
      batches := batches + [batch];
      inserted := inserted + |batch|;
    }
  }

  // ---------------------------------------------------------------- initialisation

  /** What the import does to the database, in order. */
  datatype TableOp = DropTable | CreateTable | Insert(rows: seq<Row>)

  function Inserts(batches: seq<seq<Row>>): (r: seq<TableOp>)
    ensures |r| == |batches| && forall k :: 0 <= k < |r| ==> r[k] == Insert(batches[k])
  {
    seq(|batches|, k requires 0 <= k < |batches| => Insert(batches[k]))
  }

  /** The table after the operations, from `table` (`None`: no table). An insert into a
      missing table changes nothing here; the import never issues one. */
  function Replay(table: Option<seq<Row>>, ops: seq<TableOp>): Option<seq<Row>>
  {
    if ops == [] then table
    else
      var before := Replay(table, ops[..|ops| - 1]);
      match ops[|ops| - 1]
      case DropTable => None
      case CreateTable => Some([])
      case Insert(rows) => if before.None? then None else Some(before.value + rows)
  }

  lemma {:induction false} ReplayInserts(table: Option<seq<Row>>, batches: seq<seq<Row>>)
    ensures Replay(table, [DropTable, CreateTable] + Inserts(batches)) == Some(Concat(batches))
  {
    var ops := [DropTable, CreateTable] + Inserts(batches);
    if batches != [] {
      var n := |batches| - 1;
      assert ops[..|ops| - 1] == [DropTable, CreateTable] + Inserts(batches[..n]);
      ReplayInserts(table, batches[..n]);
    } else {
      assert ops[..1] == [DropTable];
    }
  }

  const TsvMissing: string := "TSV file not found: "

  /** `initializeGeneMappingDatabase(tsvFilePath)`: `tsvExists` stands for the file check and
      `lines` for what readline yields. A missing file fails before the table is touched;
      otherwise the table is dropped and created again before any insert, and whatever it
      held before, it ends holding exactly the imported rows in file order. */
  method InitializeDatabase(tsvFilePath: string, tsvExists: bool, lines: seq<string>)
    returns (r: Result<seq<TableOp>, string>)
    ensures !tsvExists ==> r == Failure(TsvMissing + tsvFilePath)
    ensures tsvExists ==> r.Success? && |r.value| >= 2 && r.value[..2] == [DropTable, CreateTable]
    ensures tsvExists ==> forall k :: 2 <= k < |r.value| ==> r.value[k].Insert? && 0 < |r.value[k].rows| <= BatchSize
    ensures tsvExists ==> forall table :: Replay(table, r.value) == Some(ImportedRows(lines))
  {
    if !tsvExists {
      return Failure(TsvMissing + tsvFilePath);
    }
    var batches, inserted := ImportLines(lines);
    var ops := [DropTable, CreateTable] + Inserts(batches);
    forall table ensures Replay(table, ops) == Some(ImportedRows(lines)) {
      ReplayInserts(table, batches);
    }
    Front(DropTable, CreateTable, Inserts(batches));
    r := Success(ops);
  }

  // ---------------------------------------------------------------- lookups

  const DbMissing: string := "Gene mapping database not found. Please initialize the database first."

  /** The query a lookup hands to the database. */
  datatype Query =
    | ById(ensemblId: string)
    | ByIds(ensemblIds: seq<string>)
    | Matching(pattern: string, limit: int)

  /** A lookup throws, answers `[]` without querying, or runs a query. */
  datatype Lookup = Throws(message: string) | NoRows | Runs(query: Query)

  /** `getGeneSymbol(ensemblId)`; `dbExists` stands for the database file check. */
  function GetGeneSymbol(dbExists: bool, ensemblId: string): (r: Lookup)
    ensures r.Throws? <==> !dbExists
    ensures r.Throws? ==> r.message == DbMissing
    ensures r.Runs? ==> r.query.ById?
    ensures r.Runs? ==> EqualIgnoringCase(r.query.ensemblId, ensemblId) && IsUpper(r.query.ensemblId)
    ensures !r.NoRows?
  {
    UpperMeaning(ensemblId);
    if !dbExists then Throws(DbMissing) else Runs(ById(Upper(ensemblId)))
  }

  /** `getGeneSymbolsBatch(ensemblIds)`; `None` stands for any value that is not an array. */
  function GetGeneSymbolsBatch(dbExists: bool, ensemblIds: Option<seq<string>>): (r: Lookup)
    ensures r.Throws? <==> !dbExists
    ensures r.Throws? ==> r.message == DbMissing
    ensures r.NoRows? <==> dbExists && (ensemblIds.None? || ensemblIds.value == [])
    ensures r.Runs? ==> r.query.ByIds? && |r.query.ensemblIds| == |ensemblIds.value|
    ensures r.Runs? ==> forall i :: 0 <= i < |ensemblIds.value| ==>
      EqualIgnoringCase(r.query.ensemblIds[i], ensemblIds.value[i]) && IsUpper(r.query.ensemblIds[i])
  {
    if !dbExists then Throws(DbMissing)
    else if ensemblIds.None? || |ensemblIds.value| == 0 then NoRows
    else
      var ids := ensemblIds.value;
      var normalized := seq(|ids|, i requires 0 <= i < |ids| => Upper(ids[i]));
      assert forall i :: 0 <= i < |ids| ==> normalized[i] == Upper(ids[i]);
      forall i | 0 <= i < |ids| ensures EqualIgnoringCase(normalized[i], ids[i]) && IsUpper(normalized[i]) {
        UpperMeaning(ids[i]);
      }
      Runs(ByIds(normalized))
  }

  const DefaultLimit: int := 50

  /** `searchGeneMappings(query, limit)`; `None` stands for `null`/`undefined`, and an absent
      `limit` takes the default. */
  function SearchGeneMappings(dbExists: bool, query: Option<string>, limit: Option<int>): (r: Lookup)
    ensures r.Throws? <==> !dbExists
    ensures r.Throws? ==> r.message == DbMissing
    ensures r.NoRows? <==> dbExists && (query.None? || Trim(query.value) == "")
    ensures r.Runs? ==> r.query.Matching? && r.query.limit == (if limit.Some? then limit.value else DefaultLimit)
    ensures r.Runs? ==> var p := r.query.pattern;
      |p| == |query.value| + 2 && p[0] == '%' && p[|p| - 1] == '%'
      && EqualIgnoringCase(p[1..|p| - 1], query.value) && IsUpper(p[1..|p| - 1])
  {
    if !dbExists then Throws(DbMissing)
    else if query.None? || query.value == "" || |Trim(query.value)| == 0 then NoRows
    else
      var term := "%" + Upper(query.value) + "%";
      assert term[1..|term| - 1] == Upper(query.value);
      UpperMeaning(query.value);
      Runs(Matching(term, if limit.Some? then limit.value else DefaultLimit))
  }

  /** Lookups ignore the case of the IDs: IDs equal up to case give the same query. */
  lemma LookupIgnoresCase(dbExists: bool, a: string, b: string)
    requires EqualIgnoringCase(a, b)
    ensures GetGeneSymbol(dbExists, a) == GetGeneSymbol(dbExists, b)
  {
    UpperOfCaseVariants(a, b);
  }

  /** The database check comes first: without the database every lookup throws, whatever
      its arguments. */
  lemma MissingDatabaseFirst(id: string, ids: Option<seq<string>>, query: Option<string>, limit: Option<int>)
    ensures GetGeneSymbol(false, id) == Throws(DbMissing)
    ensures GetGeneSymbolsBatch(false, ids) == Throws(DbMissing)
    ensures SearchGeneMappings(false, query, limit) == Throws(DbMissing)
  {
  }
}
