/** The helpers in client/src/modules/analysis/analysis-form.utils.js that the analysis form
    uses to normalise its file inputs, check a PLINK fileset and cut uploads into chunks. */
module AnalysisFormUtils {

  import opened Wrappers
  import opened Strings
  import opened Js

  // ---------------------------------------------------------------- files and form values

  /** A browser `File`: its parts, name, MIME type and modification time. */
  datatype FileObj = FileObj(parts: seq<JsValue>, name: string, mime: string, lastModified: JsValue)

  /** What a form field may hold: a `File`, a `FileList`, an array, a plain object with
      `name`/`contents`/`type`/`lastModified` (a missing one is `undefined`), or a scalar. */
  datatype FormValue =
    | FileValue(file: FileObj)
    | FileListValue(files: seq<FileObj>)
    | ArrayValue(items: seq<FormValue>)
    | RecordValue(name: JsValue, contents: JsValue, mime: JsValue, lastModified: JsValue)
    | Scalar(v: JsValue)

  /** `asFile(value)`; `now` is the time `new Date()` reads. A `File` is kept, a non-empty
      string becomes an empty text file of that name, an object with a name and contents
      becomes a file of them, and anything else gives `null`. */
  function AsFile(value: FormValue, now: int): (r: Option<FileObj>)
    ensures value.FileValue? ==> r == Some(value.file)
    ensures value.Scalar? && value.v.Str? && value.v.s != "" ==>
      r == Some(FileObj([Str("")], value.v.s, "text/plain", Num(now)))
    ensures value.RecordValue? && Truthy(value.name) && Truthy(value.contents) ==>
      r.Some? && r.value.parts == [value.contents] && r.value.name == ToText(value.name)
      && r.value.mime == (if Truthy(value.mime) then ToText(value.mime) else "text/plain")
      && r.value.lastModified == (if Truthy(value.lastModified) then value.lastModified else Num(now))
    ensures r.None? <==>
      (value.Scalar? && !(value.v.Str? && value.v.s != ""))
      || value.FileListValue? || value.ArrayValue?
      || (value.RecordValue? && !(Truthy(value.name) && Truthy(value.contents)))
  {
    match value
    case FileValue(f) => Some(f)
    case Scalar(Str(s)) =>
      if s != "" then Some(FileObj([Str("")], s, "text/plain", Num(now))) else None
    case RecordValue(name, contents, mime, lastModified) =>
      if Truthy(name) && Truthy(contents) then
        Some(FileObj([contents], ToText(name),
                     if Truthy(mime) then ToText(mime) else "text/plain",
                     if Truthy(lastModified) then lastModified else Num(now)))
      else None
    case _ => None
  }

  /** A file made from a string or an object always has a non-empty name. */
  lemma MadeFilesAreNamed(value: FormValue, now: int)
    requires !value.FileValue? && AsFile(value, now).Some?
    ensures AsFile(value, now).value.name != ""
  {
  }

  /** `map(asFile).filter(Boolean)`: the files the items convert to, in order. */
  function Converted(items: seq<FormValue>, now: int): (r: seq<FileObj>)
    ensures |r| <= |items|
  {
    if items == [] then []
    else (match AsFile(items[0], now) case Some(f) => [f] case None => []) + Converted(items[1..], now)
  }

  lemma {:induction false} ConvertedAppend(a: seq<FormValue>, b: seq<FormValue>, now: int)
    ensures Converted(a + b, now) == Converted(a, now) + Converted(b, now)
  {
    if a == [] {
      assert a + b == b;
    } else {
      assert (a + b)[0] == a[0] && (a + b)[1..] == a[1..] + b;
      ConvertedAppend(a[1..], b, now);
    }
  }

  /** The items `asFileList` converts: an array's items, or the value alone. */
  function ListItems(files: FormValue): seq<FormValue>
  {
    if files.ArrayValue? then files.items else [files]
  }

  /** `asFileList(files)`: a `FileList` is returned as it is; otherwise each item is
      converted in order, unconvertible items are dropped, and the files are added one by
      one to a new list. */
  method AsFileList(files: FormValue, now: int) returns (list: seq<FileObj>)
    ensures files.FileListValue? ==> list == files.files
    ensures !files.FileListValue? ==> list == Converted(ListItems(files), now)
  {
    if files.FileListValue? {
      return files.files;
    }
    var items := ListItems(files);
    var fileList := Converted(items, now);
    list := [];
    var i := 0;
    while i < |fileList|
      invariant 0 <= i <= |fileList|
      invariant list == fileList[..i]
    {
      list := list + [fileList[i]];
      i := i + 1;
    }
    assert fileList[..i] == fileList;
  }

  /** Files pass through the conversion unchanged. */
  lemma {:induction false} ConvertedFiles(fs: seq<FileObj>, now: int)
    ensures Converted(seq(|fs|, i requires 0 <= i < |fs| => FileValue(fs[i])), now) == fs
  {
    var items := seq(|fs|, i requires 0 <= i < |fs| => FileValue(fs[i]));
    if fs != [] {
      assert items[1..] == seq(|fs[1..]|, i requires 0 <= i < |fs[1..]| => FileValue(fs[1..][i]));
      ConvertedFiles(fs[1..], now);
    }
  }

  /** Names given as non-empty strings become files with those names, in order. */
  lemma {:induction false} ConvertedNames(names: seq<string>, now: int)
    requires forall i :: 0 <= i < |names| ==> names[i] != ""
    ensures var r := Converted(seq(|names|, i requires 0 <= i < |names| => Scalar(Str(names[i]))), now);
      |r| == |names| && forall i :: 0 <= i < |r| ==> r[i].name == names[i]
  {
    var items := seq(|names|, i requires 0 <= i < |names| => Scalar(Str(names[i])));
    if names != [] {
      assert items[1..] == seq(|names[1..]|, i requires 0 <= i < |names[1..]| => Scalar(Str(names[1..][i])));
      ConvertedNames(names[1..], now);
    }
  }

  // ---------------------------------------------------------------- file names

  /** What `getFileNames` gives: one name, a list of names, or the value itself. */
  datatype FileNames = OneName(name: string) | NameList(names: seq<string>) | Unchanged(value: FormValue)

  function Names(files: seq<FileObj>): (r: seq<string>)
    ensures |r| == |files| && forall i :: 0 <= i < |files| ==> r[i] == files[i].name
  {
    seq(|files|, i requires 0 <= i < |files| => files[i].name)
  }

  /** `getFileNames(values)`: a `FileList` of exactly one file gives its name, any other
      `FileList` the array of names in order; other values pass through. */
  function GetFileNames(values: FormValue): (r: FileNames)
    ensures values.FileListValue? && |values.files| == 1 <==> r.OneName?
    ensures r.OneName? ==> r.name == values.files[0].name
    ensures r.NameList? ==> values.FileListValue? && r.names == Names(values.files)
    ensures !values.FileListValue? ==> r == Unchanged(values)
  {
    if values.FileListValue? then
      var names := Names(values.files);
      if |names| == 1 then OneName(names[0]) else NameList(names)
    else Unchanged(values)
  }

  /** The names a form stored for a fileset come back from the file list built from them. */
  lemma NamesRoundTrip(names: seq<string>, now: int)
    requires |names| != 1 && forall i :: 0 <= i < |names| ==> names[i] != ""
    ensures var items := seq(|names|, i requires 0 <= i < |names| => Scalar(Str(names[i])));
      GetFileNames(FileListValue(Converted(items, now))) == NameList(names)
  {
    ConvertedNames(names, now);
  }

  /** A single stored name comes back as that name. */
  lemma OneNameRoundTrip(name: string, now: int)
    requires name != ""
    ensures GetFileNames(FileListValue(Converted([Scalar(Str(name))], now))) == OneName(name)
  {
    assert Converted([Scalar(Str(name))], now) == [FileObj([Str("")], name, "text/plain", Num(now))] + Converted([], now);
  }

  // ---------------------------------------------------------------- PLINK filesets

  /** An entry of the fileset checked: a `File` or a bare name. */
  datatype Entry = FileEntry(file: FileObj) | NameEntry(name: string)

  function EntryName(e: Entry): string
  {
    match e
    case FileEntry(f) => f.name
    case NameEntry(n) => n
  }

  /** The names of the selected files: an entry that is a `File` gives its `name`, whatever
      it is (even ""), and an entry that is already a bare name is kept as it is. */
  function EntryNames(entries: seq<Entry>): (r: seq<string>)
    ensures |r| == |entries| && forall i :: 0 <= i < |entries| ==> r[i] == EntryName(entries[i])
  {
    seq(|entries|, i requires 0 <= i < |entries| => EntryName(entries[i]))
  }

  /** `f.replace(/\.[^.]+$/, "")`: the last extension removed, when there is one. */
  function StripLastExtension(f: string): (r: string)
    ensures r == f || (exists k :: 0 <= k < |f| - 1 && r == f[..k] && f[k] == '.' && '.' !in f[k + 1..])
  {
    match LastIndexOfChar(f, '.')
    case Some(k) => if k < |f| - 1 then f[..k] else f
    case None => f
  }

  const Message: string := "Please choose a valid set of .bed, .bim, and .fam files"

  /** `true`, or the message the form shows. */
  datatype PlinkCheck = Valid | Invalid(message: string)

  /** `/\.ext$/i.test(f)`. */
  predicate HasExtension(f: string, ext: string)
  {
    EndsWith(Lower(f), ext)
  }

  /** `fileNames.some(f => pattern.test(f))`. */
  predicate SomeHas(names: seq<string>, ext: string)
  {
    names != [] && (HasExtension(names[0], ext) || SomeHas(names[1..], ext))
  }

  function Prefixes(names: seq<string>): (r: seq<string>)
    ensures |r| == |names| && forall i :: 0 <= i < |names| ==> r[i] == StripLastExtension(names[i])
  {
    seq(|names|, i requires 0 <= i < |names| => StripLastExtension(names[i]))
  }

  /** `isValidPlinkDataset(files)`; `None` stands for `null`/`undefined`. */
  function IsValidPlinkDataset(files: Option<seq<Entry>>): (r: PlinkCheck)
    ensures r.Invalid? ==> r.message == Message
  {
    if files.None? || |files.value| == 0 then Valid
    else
      var names := EntryNames(files.value);
      var hasAllFiles := SomeHas(names, ".bed") && SomeHas(names, ".bim") && SomeHas(names, ".fam");
      var prefixes := Prefixes(names);
      var hasMatchingFileNames := |set p | p in prefixes| == 1;
      if hasAllFiles && hasMatchingFileNames then Valid else Invalid(Message)
  }

  lemma {:induction false} SomeHasIff(names: seq<string>, ext: string)
    ensures SomeHas(names, ext) <==> exists i :: 0 <= i < |names| && HasExtension(names[i], ext)
  {
    if names != [] {
      SomeHasIff(names[1..], ext);
      if SomeHas(names[1..], ext) {
        var i :| 0 <= i < |names[1..]| && HasExtension(names[1..][i], ext);
        assert HasExtension(names[i + 1], ext);
      }
      if exists i :: 0 <= i < |names| && HasExtension(names[i], ext) {
        var i :| 0 <= i < |names| && HasExtension(names[i], ext);
        if i > 0 {
          assert HasExtension(names[1..][i - 1], ext);
        }
      }
    }
  }

  /** A non-empty list has one distinct element exactly when all its elements are equal. */
  lemma OneDistinct(ps: seq<string>)
    requires ps != []
    ensures |set p | p in ps| == 1 <==> forall i :: 0 <= i < |ps| ==> ps[i] == ps[0]
  {
    var s := set p | p in ps;
    assert ps[0] in s;
    if forall i :: 0 <= i < |ps| ==> ps[i] == ps[0] {
      assert s == {ps[0]};
    } else {
      var i :| 0 <= i < |ps| && ps[i] != ps[0];
      assert ps[i] in s;
      assert {ps[0], ps[i]} <= s;
      assert |{ps[0], ps[i]}| == 2;
    }
    if |s| == 1 {
      assert |s - {ps[0]}| == 0;
      forall i | 0 <= i < |ps|
        ensures ps[i] == ps[0]
      {
        assert ps[i] in s;
        assert ps[i] !in s - {ps[0]};
      }
    }
  }

  /** What a valid fileset is, whatever the order: some name ends in .bed, some in .bim and
      some in .fam (ignoring case), and all names agree once their last extension is removed. */
  ghost predicate PlinkFileset(entries: seq<Entry>)
  {
    (exists e :: e in entries && HasExtension(EntryName(e), ".bed"))
    && (exists e :: e in entries && HasExtension(EntryName(e), ".bim"))
    && (exists e :: e in entries && HasExtension(EntryName(e), ".fam"))
    && (forall e, f :: e in entries && f in entries ==>
          StripLastExtension(EntryName(e)) == StripLastExtension(EntryName(f)))
  }

  lemma SomeHasEntries(entries: seq<Entry>, ext: string)
    ensures var names := EntryNames(entries);
      SomeHas(names, ext) <==> exists e :: e in entries && HasExtension(EntryName(e), ext)
  {
    var names := EntryNames(entries);
    SomeHasIff(names, ext);
    if exists e :: e in entries && HasExtension(EntryName(e), ext) {
      var e :| e in entries && HasExtension(EntryName(e), ext);
      var i :| 0 <= i < |entries| && entries[i] == e;
      assert HasExtension(names[i], ext);
    }
  }

  /** All prefixes equal the first exactly when any two entries agree on theirs. */
  lemma PrefixesAgree(entries: seq<Entry>)
    requires entries != []
    ensures var prefixes := Prefixes(EntryNames(entries));
      (forall i :: 0 <= i < |prefixes| ==> prefixes[i] == prefixes[0]) <==>
      (forall e, f :: e in entries && f in entries ==>
         StripLastExtension(EntryName(e)) == StripLastExtension(EntryName(f)))
  {
    var prefixes := Prefixes(EntryNames(entries));
    assert forall i :: 0 <= i < |entries| ==> prefixes[i] == StripLastExtension(EntryName(entries[i]));
    if forall i :: 0 <= i < |prefixes| ==> prefixes[i] == prefixes[0] {
      forall e, f | e in entries && f in entries
        ensures StripLastExtension(EntryName(e)) == StripLastExtension(EntryName(f))
      {
        var i :| 0 <= i < |entries| && entries[i] == e;
        var j :| 0 <= j < |entries| && entries[j] == f;
        assert prefixes[i] == prefixes[0] == prefixes[j];
      }
    }
    if forall e, f :: e in entries && f in entries ==>
        StripLastExtension(EntryName(e)) == StripLastExtension(EntryName(f)) {
      forall i | 0 <= i < |prefixes| ensures prefixes[i] == prefixes[0] {
        assert entries[i] in entries && entries[0] in entries;
      }
    }
  }

  /** A non-empty fileset is accepted exactly when it is a PLINK fileset; an empty or missing
      one is always accepted; a rejection carries the form's message. */
  lemma PlinkValidIff(entries: seq<Entry>)
    ensures IsValidPlinkDataset(Some(entries)).Valid? <==> entries == [] || PlinkFileset(entries)
    ensures IsValidPlinkDataset(None) == Valid
  {
    if entries != [] {
      var names := EntryNames(entries);
      var all := SomeHas(names, ".bed") && SomeHas(names, ".bim") && SomeHas(names, ".fam");
      var matching := |set p | p in Prefixes(names)| == 1;
      assert IsValidPlinkDataset(Some(entries)).Valid? <==> all && matching;
      SomeHasEntries(entries, ".bed");
      SomeHasEntries(entries, ".bim");
      SomeHasEntries(entries, ".fam");
      OneDistinct(Prefixes(names));
      PrefixesAgree(entries);
    }
  }

  /** The verdict does not depend on the order in which the files were chosen. */
  lemma PlinkOrderIndependent(a: seq<Entry>, b: seq<Entry>)
    requires multiset(a) == multiset(b)
    ensures IsValidPlinkDataset(Some(a)) == IsValidPlinkDataset(Some(b))
  {
    PlinkValidIff(a);
    PlinkValidIff(b);
    assert forall e :: e in a <==> e in b by {
      forall e ensures e in a <==> e in b {
        assert e in a <==> e in multiset(a);
        assert e in b <==> e in multiset(b);
      }
    }
    assert a == [] <==> b == [] by {
      assert |a| == |multiset(a)| == |multiset(b)| == |b|;
    }
  }

  // ---------------------------------------------------------------- upload chunks

  function Min(a: int, b: int): int { if a <= b then a else b }

  /** The `[start, end)` pairs `getChunkIndexes` produces from `i` on. */
  function ChunksFrom(i: int, totalSize: int, chunkSize: int): seq<(int, int)>
    requires i >= totalSize || chunkSize > 0
    decreases totalSize - i
  {
    if i >= totalSize then [] else [(i, Min(i + chunkSize, totalSize))] + ChunksFrom(i + chunkSize, totalSize, chunkSize)
  }

  /** `getChunkIndexes(totalSize, chunkSize)`: pairs are pushed while the start is below the
      total. The loop only ends when the chunk size is positive or there is nothing to cut. */
  method GetChunkIndexes(totalSize: int, chunkSize: int) returns (indexes: seq<(int, int)>)
    requires totalSize <= 0 || chunkSize > 0
    ensures indexes == ChunksFrom(0, totalSize, chunkSize)
  {
    indexes := [];
    var i := 0;
    while i < totalSize
      invariant i >= totalSize || chunkSize > 0
      invariant indexes + ChunksFrom(i, totalSize, chunkSize) == ChunksFrom(0, totalSize, chunkSize)
      decreases totalSize - i
    {
      var pair := (i, Min(i + chunkSize, totalSize));
      assert ChunksFrom(i, totalSize, chunkSize) == [pair] + ChunksFrom(i + chunkSize, totalSize, chunkSize);
      assert indexes + ([pair] + ChunksFrom(i + chunkSize, totalSize, chunkSize))
          == (indexes + [pair]) + ChunksFrom(i + chunkSize, totalSize, chunkSize);
      indexes := indexes + [pair];
      i := i + chunkSize;
    }
    assert ChunksFrom(i, totalSize, chunkSize) == [];
    assert indexes + [] == indexes;
  }

  /** The pairs the loop of `getChunkIndexes` pushes from start `i` within at most `rounds`
      rounds, for any chunk size. */
  function PushedWithin(i: int, totalSize: int, chunkSize: int, rounds: nat): seq<(int, int)>
    decreases rounds
  {
    if rounds == 0 || i >= totalSize then []
    else [(i, Min(i + chunkSize, totalSize))] + PushedWithin(i + chunkSize, totalSize, chunkSize, rounds - 1)
  }

  /** With a chunk size that is not positive and a start below the total, the start never
      grows, so every round pushes a pair: the loop never ends, whatever bound is put on it. */
  lemma {:induction false} ChunkLoopStalls(i: int, totalSize: int, chunkSize: int, rounds: nat)
    requires i < totalSize && chunkSize <= 0
    ensures var r := PushedWithin(i, totalSize, chunkSize, rounds);
      |r| == rounds && forall k :: 0 <= k < |r| ==> r[k].0 <= i
    decreases rounds
  {
    if rounds > 0 {
      ChunkLoopStalls(i + chunkSize, totalSize, chunkSize, rounds - 1);
    }
  }

  /** Nothing to cut gives no chunks. */
  lemma NoChunksWhenEmpty(totalSize: int, chunkSize: int)
    requires totalSize <= 0
    ensures ChunksFrom(0, totalSize, chunkSize) == []
  {
  }

  /** From `i` on, the chunks start at `i`, follow one another without gap, each is non-empty
      and at most `chunkSize` long, the last ends at the total, and there are
      ceil((totalSize - i) / chunkSize) of them. */
  lemma ChunksShape(i: int, totalSize: int, chunkSize: int)
    requires chunkSize > 0 && i < totalSize
    ensures var r := ChunksFrom(i, totalSize, chunkSize);
      && |r| >= 1 && r[0].0 == i && r[|r| - 1].1 == totalSize
      && (forall k :: 0 <= k < |r| ==> r[k].0 < r[k].1 <= r[k].0 + chunkSize)
      && (forall k :: 0 <= k < |r| - 1 ==> r[k].1 == r[k + 1].0)
      && (|r| - 1) * chunkSize < totalSize - i <= |r| * chunkSize
  {
    ChunksContiguous(i, totalSize, chunkSize);
    ChunksCount(i, totalSize, chunkSize);
  }

  lemma {:induction false} ChunksContiguous(i: int, totalSize: int, chunkSize: int)
    requires chunkSize > 0 && i < totalSize
    ensures var r := ChunksFrom(i, totalSize, chunkSize);
      && |r| >= 1 && r[0].0 == i && r[|r| - 1].1 == totalSize
      && (forall k :: 0 <= k < |r| ==> r[k].0 < r[k].1 <= r[k].0 + chunkSize)
      && (forall k :: 0 <= k < |r| - 1 ==> r[k].1 == r[k + 1].0)
    decreases totalSize - i
  {
    var r := ChunksFrom(i, totalSize, chunkSize);
    var rest := ChunksFrom(i + chunkSize, totalSize, chunkSize);
    assert r == [(i, Min(i + chunkSize, totalSize))] + rest;
    if i + chunkSize < totalSize {
      ChunksContiguous(i + chunkSize, totalSize, chunkSize);
      assert r[1..] == rest;
      assert forall k :: 1 <= k < |r| ==> r[k] == rest[k - 1];
    }
  }

  lemma {:induction false} ChunksCount(i: int, totalSize: int, chunkSize: int)
    requires chunkSize > 0 && i < totalSize
    ensures var r := ChunksFrom(i, totalSize, chunkSize);
      (|r| - 1) * chunkSize < totalSize - i <= |r| * chunkSize
    decreases totalSize - i
  {
    var r := ChunksFrom(i, totalSize, chunkSize);
    var rest := ChunksFrom(i + chunkSize, totalSize, chunkSize);
    assert |r| == 1 + |rest|;
    if i + chunkSize < totalSize {
      ChunksCount(i + chunkSize, totalSize, chunkSize);
      assert (|r| - 1) * chunkSize == |rest| * chunkSize;
      assert |r| * chunkSize == |rest| * chunkSize + chunkSize;
    } else {
      assert rest == [];
    }
  }

  /** Every offset of the upload lies in exactly one chunk. */
  lemma ChunksCover(totalSize: int, chunkSize: int, x: int)
    requires chunkSize > 0 && 0 <= x < totalSize
    ensures var r := ChunksFrom(0, totalSize, chunkSize);
      exists k :: 0 <= k < |r| && r[k].0 <= x < r[k].1
    ensures var r := ChunksFrom(0, totalSize, chunkSize);
      forall k, m :: 0 <= k < |r| && 0 <= m < |r| && r[k].0 <= x < r[k].1 && r[m].0 <= x < r[m].1 ==> k == m
  {
    var r := ChunksFrom(0, totalSize, chunkSize);
    ChunksShape(0, totalSize, chunkSize);
    Ascending(r);
    CoverFrom(r, 0, x);
  }

  /** Contiguous non-empty chunks have increasing starts and ends. */
  lemma {:induction false} Ascending(r: seq<(int, int)>)
    requires forall k :: 0 <= k < |r| ==> r[k].0 < r[k].1
    requires forall k :: 0 <= k < |r| - 1 ==> r[k].1 == r[k + 1].0
    ensures forall k, m :: 0 <= k < m < |r| ==> r[k].1 <= r[m].0
  {
    if |r| > 1 {
      Ascending(r[1..]);
      forall k, m | 0 <= k < m < |r| ensures r[k].1 <= r[m].0 {
        if k > 0 {
          assert r[k] == r[1..][k - 1] && r[m] == r[1..][m - 1];
        } else if m > 1 {
          assert r[1] == r[1..][0] && r[m] == r[1..][m - 1];
        }
      }
    }
  }

  /** An offset between the start of chunk `j` and the end of the last one lies in some
      chunk from `j` on. */
  lemma {:induction false} CoverFrom(r: seq<(int, int)>, j: nat, x: int)
    requires j < |r| && r[j].0 <= x < r[|r| - 1].1
    requires forall k :: 0 <= k < |r| - 1 ==> r[k].1 == r[k + 1].0
    ensures exists k :: j <= k < |r| && r[k].0 <= x < r[k].1
    decreases |r| - j
  {
    if x >= r[j].1 {
      CoverFrom(r, j + 1, x);
    }
  }
}
