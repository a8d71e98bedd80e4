/**
  The data-file side of the importer: turning one tab-separated record of the AOL
  query log into a typed row, reading a file (header skipped, rows in file order),
  and what importing a sequence of files copies into the queries table. Tokenising
  a file into records, and parsing integers and ISO timestamps, are abstract.
 */
module RowConversion {
  import opened Wrappers
  import opened Sequences

  /** One tokenised line of a data file: its fields, in order. */
  type Record = seq<string>

  /** A data file, as the records the tokeniser yields for it, header first. */
  datatype DataFile = DataFile(records: seq<Record>)

  /** A converted record; the timestamp type is left abstract. */
  datatype DataRow<Time> = DataRow(
    anonId: int,
    query: string,
    queryTime: Time,
    itemRank: Option<int>,
    clickUrl: Option<string>)

  /** The two library parsers, as partial functions: None is the ValueError they raise. */
  datatype Parsers<Time> = Parsers(parseInt: string -> Option<int>, parseTime: string -> Option<Time>)

  /**
    Why a record does not convert. The fields are read in order, so the first
    failure wins: MissingField(k) is the IndexError on field k.
   */
  datatype ConvertError =
    | MissingField(index: nat)
    | BadAnonId(text: string)
    | BadQueryTime(text: string)
    | BadItemRank(text: string)

  /** A file that cannot be read: no header line, or a record after it that does not convert. */
  datatype ReadError =
    | NoHeader
    | BadRecord(line: nat, cause: ConvertError)

  /** The importer stops at the first file it cannot read; file is its position in the glob's order. */
  datatype ImportError = FileFailed(file: nat, cause: ReadError)

  /** Python's truthiness test on a field: only the empty string is false. */
  predicate Present(field: string)
  {
    field != ""
  }

  /**
    DataRow.convert: anon_id is int(field 0), query is field 1, query_time is
    fromisoformat(field 2), item_rank is int(field 3) unless that field is empty,
    click_url is field 4 unless it is empty. Fields after the fifth are ignored.
   */
  function Convert<Time>(row: Record, ps: Parsers<Time>): Result<DataRow<Time>, ConvertError>
  {
    if |row| < 1 then Err(MissingField(0))
    else if ps.parseInt(row[0]).None? then Err(BadAnonId(row[0]))
    else if |row| < 3 then Err(MissingField(|row|))
    else if ps.parseTime(row[2]).None? then Err(BadQueryTime(row[2]))
    else if |row| < 4 then Err(MissingField(3))
    else if Present(row[3]) && ps.parseInt(row[3]).None? then Err(BadItemRank(row[3]))
    else if |row| < 5 then Err(MissingField(4))
    else
      Ok(DataRow(
        ps.parseInt(row[0]).value,
        row[1],
        ps.parseTime(row[2]).value,
        if Present(row[3]) then Some(ps.parseInt(row[3]).value) else None,
        if Present(row[4]) then Some(row[4]) else None))
  }

  /** A record converts exactly when it has five fields and every parse it needs succeeds. */
  lemma ConvertSucceeds<Time>(row: Record, ps: Parsers<Time>)
    ensures Convert(row, ps).Ok? <==>
      && |row| >= 5
      && ps.parseInt(row[0]).Some?
      && ps.parseTime(row[2]).Some?
      && (Present(row[3]) ==> ps.parseInt(row[3]).Some?)
  {
  }

  /** The fields of a converted record, each in both directions for the optional ones. */
  lemma ConvertFields<Time>(row: Record, ps: Parsers<Time>)
    ensures var r := Convert(row, ps);
      r.Ok? ==>
        && Some(r.value.anonId) == ps.parseInt(row[0])
        && r.value.query == row[1]
        && Some(r.value.queryTime) == ps.parseTime(row[2])
        && (r.value.itemRank.None? <==> row[3] == "")
        && (r.value.itemRank.Some? ==> Some(r.value.itemRank.value) == ps.parseInt(row[3]))
        && (r.value.clickUrl.None? <==> row[4] == "")
        && (r.value.clickUrl.Some? ==> r.value.clickUrl.value == row[4])
  {
  }

  /** A record with fewer than five fields never converts; the missing field named is the first absent one. */
  lemma ConvertShort<Time>(row: Record, ps: Parsers<Time>)
    ensures |row| < 5 ==> Convert(row, ps).Err?
    ensures Convert(row, ps).Err? && Convert(row, ps).error.MissingField? ==>
      Convert(row, ps).error.index == |row| < 5
  {
  }

  /** Fields beyond the fifth do not take part in the conversion. */
  lemma ConvertIgnoresExtra<Time>(row: Record, ps: Parsers<Time>, extra: seq<string>)
    requires |row| >= 5
    ensures Convert(row + extra, ps) == Convert(row, ps)
  {
    assert (row + extra)[..5] == row[..5];
    assert forall k :: 0 <= k < 5 ==> (row + extra)[k] == row[k];
  }

  /**
    The inverse direction: a data row written out as a record with printers the
    parsers undo (and whose integers never print as the empty string) converts
    back to itself, provided its click_url is not the empty string, which the
    conversion cannot produce.
   */
  function Render<Time>(d: DataRow<Time>, showInt: int -> string, showTime: Time -> string): (r: Record)
    ensures |r| == 5 && r[1] == d.query
  {
    [ showInt(d.anonId),
      d.query,
      showTime(d.queryTime),
      if d.itemRank.Some? then showInt(d.itemRank.value) else "",
      if d.clickUrl.Some? then d.clickUrl.value else "" ]
  }

  lemma ConvertRender<Time>(d: DataRow<Time>, ps: Parsers<Time>, showInt: int -> string, showTime: Time -> string)
    requires forall n :: ps.parseInt(showInt(n)) == Some(n) && showInt(n) != ""
    requires forall t :: ps.parseTime(showTime(t)) == Some(t)
    requires d.clickUrl != Some("")
    ensures Convert(Render(d, showInt, showTime), ps) == Ok(d)
  {
    var r := Render(d, showInt, showTime);
    assert ps.parseInt(r[0]) == Some(d.anonId);
    assert ps.parseTime(r[2]) == Some(d.queryTime);
    if d.itemRank.Some? {
      var v := d.itemRank.value;
      assert ps.parseInt(showInt(v)) == Some(v);
      assert r[3] == showInt(v);
    }
  }

  /** Convert the records from position `from` of a file on, stopping at the first that fails. */
  function ConvertFrom<Time>(records: seq<Record>, from: nat, ps: Parsers<Time>): Result<seq<DataRow<Time>>, ReadError>
    decreases |records| - from
  {
    if from >= |records| then Ok([])
    else match Convert(records[from], ps)
      case Err(e) => Err(BadRecord(from, e))
      case Ok(d) =>
        match ConvertFrom(records, from + 1, ps)
        case Err(e) => Err(e)
        case Ok(ds) => Ok([d] + ds)
  }

  /**
    get_reader: the header record is consumed unread (a file without one raises),
    then every later record is converted, in file order.
   */
  function GetReader<Time>(file: DataFile, ps: Parsers<Time>): Result<seq<DataRow<Time>>, ReadError>
  {
    if file.records == [] then Err(NoHeader) else ConvertFrom(file.records, 1, ps)
  }

  /** get_readers: one reader per file, in the order the files are listed. */
  function GetReaders<Time>(files: seq<DataFile>, ps: Parsers<Time>): (r: seq<Result<seq<DataRow<Time>>, ReadError>>)
    ensures |r| == |files|
  {
    seq(|files|, i requires 0 <= i < |files| => GetReader(files[i], ps))
  }

  /** An import in progress: its verdict so far and the batches the table has received. */
  datatype ImportState<Time> = ImportState(result: Result<(), ImportError>, copied: seq<seq<DataRow<Time>>>)

  /** One copy for file i, unless an earlier file already failed. A failed copy adds nothing. */
  function CopyStep<Time>(s: ImportState<Time>, i: nat, reader: Result<seq<DataRow<Time>>, ReadError>): ImportState<Time>
  {
    if s.result.Err? then s
    else match reader
      case Err(e) => ImportState(Err(FileFailed(i, e)), s.copied)
      case Ok(rows) => ImportState(Ok(()), s.copied + [rows])
  }

  /** import_data over the files, as a value: one copy per file, in order, until the first failure. */
  function Import<Time>(files: seq<DataFile>, ps: Parsers<Time>): ImportState<Time>
  {
    if files == [] then ImportState(Ok(()), [])
    else CopyStep(Import(files[..|files| - 1], ps), |files| - 1, GetReader(files[|files| - 1], ps))
  }

  /** The records a file's reader yields: one row per record after the header, each its conversion. */
  lemma {:induction false} ConvertFromOk<Time>(records: seq<Record>, from: nat, ps: Parsers<Time>)
    requires from <= |records|
    ensures var r := ConvertFrom(records, from, ps);
      r.Ok? <==> forall k :: from <= k < |records| ==> Convert(records[k], ps).Ok?
    ensures var r := ConvertFrom(records, from, ps);
      r.Ok? ==> (|r.value| == |records| - from &&
                 forall k :: 0 <= k < |r.value| ==> Ok(r.value[k]) == Convert(records[from + k], ps))
    decreases |records| - from
  {
    if from < |records| {
      ConvertFromOk(records, from + 1, ps);
      var r := ConvertFrom(records, from, ps);
      if r.Ok? {
        var rest := ConvertFrom(records, from + 1, ps);
        assert r.value == [r.value[0]] + rest.value;
        forall k | 0 <= k < |r.value| ensures Ok(r.value[k]) == Convert(records[from + k], ps) {
          if k > 0 {
            assert r.value[k] == rest.value[k - 1];
          }
        }
      }
    }
  }

  /** A reader that fails names the first record after `from` that does not convert. */
  lemma {:induction false} ConvertFromErr<Time>(records: seq<Record>, from: nat, ps: Parsers<Time>)
    requires from <= |records|
    ensures var r := ConvertFrom(records, from, ps);
      r.Err? ==>
        && r.error.BadRecord?
        && from <= r.error.line < |records|
        && Convert(records[r.error.line], ps) == Err(r.error.cause)
        && forall k :: from <= k < r.error.line ==> Convert(records[k], ps).Ok?
    decreases |records| - from
  {
    if from < |records| {
      ConvertFromErr(records, from + 1, ps);
    }
  }

  /** get_reader yields one row per record after the first, in file order, each that record's conversion. */
  lemma GetReaderRows<Time>(file: DataFile, ps: Parsers<Time>)
    ensures var r := GetReader(file, ps);
      r.Ok? <==> file.records != [] && forall k :: 1 <= k < |file.records| ==> Convert(file.records[k], ps).Ok?
    ensures var r := GetReader(file, ps);
      r.Ok? ==> (|r.value| == |file.records| - 1 &&
                 forall k :: 0 <= k < |r.value| ==> Ok(r.value[k]) == Convert(file.records[k + 1], ps))
  {
    if file.records != [] {
      ConvertFromOk(file.records, 1, ps);
    }
  }

  /** A file that does not read has no header, or a first bad record after the header. */
  lemma GetReaderFails<Time>(file: DataFile, ps: Parsers<Time>)
    ensures var r := GetReader(file, ps);
      r.Err? ==>
        (r.error == NoHeader <==> file.records == []) &&
        (r.error.BadRecord? ==>
          && 1 <= r.error.line < |file.records|
          && Convert(file.records[r.error.line], ps) == Err(r.error.cause)
          && forall k :: 1 <= k < r.error.line ==> Convert(file.records[k], ps).Ok?)
  {
    if file.records != [] {
      ConvertFromErr(file.records, 1, ps);
    }
  }

  /** The header line is never converted: any header gives the same reader. */
  lemma {:induction false} HeaderIgnored<Time>(file: DataFile, header: Record, ps: Parsers<Time>)
    requires file.records != []
    ensures GetReader(file, ps) == GetReader(DataFile([header] + file.records[1..]), ps)
  {
    var other := [header] + file.records[1..];
    ConvertFromSame(file.records, other, 1, ps);
  }

  lemma {:induction false} ConvertFromSame<Time>(a: seq<Record>, b: seq<Record>, from: nat, ps: Parsers<Time>)
    requires |a| == |b| && from <= |a|
    requires forall k :: from <= k < |a| ==> a[k] == b[k]
    ensures ConvertFrom(a, from, ps) == ConvertFrom(b, from, ps)
    decreases |a| - from
  {
    if from < |a| {
      ConvertFromSame(a, b, from + 1, ps);
    }
  }

  /** The import after one more file: a prefix's state, stepped by that file's reader. */
  lemma ImportNext<Time>(files: seq<DataFile>, i: nat, ps: Parsers<Time>)
    requires i < |files|
    ensures Import(files[..i + 1], ps) == CopyStep(Import(files[..i], ps), i, GetReader(files[i], ps))
  {
    assert files[..i + 1][..i] == files[..i];
  }

  lemma ImportWhole<Time>(files: seq<DataFile>, ps: Parsers<Time>)
    ensures Import(files[..|files|], ps) == Import(files, ps)
  {
    assert files[..|files|] == files;
  }

  /** Once a prefix has failed, further files change nothing. */
  lemma {:induction false} ImportSticky<Time>(files: seq<DataFile>, i: nat, ps: Parsers<Time>)
    requires i <= |files|
    requires Import(files[..i], ps).result.Err?
    ensures Import(files, ps) == Import(files[..i], ps)
    decreases |files| - i
  {
    if i < |files| {
      ImportNext(files, i, ps);
      ImportSticky(files, i + 1, ps);
    } else {
      ImportWhole(files, ps);
    }
  }

  /**
    A successful import copied every file once, in order, each copy holding that
    file's converted rows, and it succeeds exactly when every file reads.
   */
  lemma {:induction false} ImportOk<Time>(files: seq<DataFile>, ps: Parsers<Time>)
    ensures Import(files, ps).result.Ok? <==> forall i :: 0 <= i < |files| ==> GetReader(files[i], ps).Ok?
    ensures var s := Import(files, ps);
      s.result.Ok? ==> (|s.copied| == |files| &&
                        forall i :: 0 <= i < |files| ==> Ok(s.copied[i]) == GetReader(files[i], ps))
  {
    if files != [] {
      var init := files[..|files| - 1];
      ImportOk(init, ps);
      assert forall i :: 0 <= i < |init| ==> init[i] == files[i];
    }
  }

  /**
    A failed import names the first file that did not read; the files before it
    were copied, in order, and nothing from it or after it.
   */
  lemma {:induction false} ImportFails<Time>(files: seq<DataFile>, ps: Parsers<Time>)
    ensures var s := Import(files, ps);
      s.result.Err? ==>
        && s.result.error.file < |files|
        && GetReader(files[s.result.error.file], ps) == Err(s.result.error.cause)
        && |s.copied| == s.result.error.file
        && forall i :: 0 <= i < s.result.error.file ==> Ok(s.copied[i]) == GetReader(files[i], ps)
  {
    if files != [] {
      var init := files[..|files| - 1];
      ImportFails(init, ps);
      ImportOk(init, ps);
      assert forall i :: 0 <= i < |init| ==> init[i] == files[i];
    }
  }

  /** Every row the table receives is the conversion of a record after the header of some file. */
  lemma ImportedRowsConverted<Time>(files: seq<DataFile>, ps: Parsers<Time>, i: nat, k: nat)
    requires i < |Import(files, ps).copied| && k < |Import(files, ps).copied[i]|
    ensures i < |files| && 1 <= k + 1 < |files[i].records|
    ensures Ok(Import(files, ps).copied[i][k]) == Convert(files[i].records[k + 1], ps)
  {
    ImportOk(files, ps);
    ImportFails(files, ps);
    GetReaderRows(files[i], ps);
  }
}
