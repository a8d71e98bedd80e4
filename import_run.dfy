/**
  The importer's loop: one COPY into the queries table per data file, in the
  order the files are listed, each carrying that file's converted rows. The
  connection is an object whose table and log of copies the copies extend.
 */
module ImportRun {
  import opened Wrappers
  import opened Sequences
  import opened RowConversion

  /**
    The database end of the connection: the rows of the queries table and the
    batches copied into it, in order. COPY is one statement, so a batch whose
    records fail part-way adds nothing.
   */
  class Connection<Time> {
    var table: seq<DataRow<Time>>
    var copies: seq<seq<DataRow<Time>>>

    constructor(table: seq<DataRow<Time>>)
      ensures this.table == table && copies == []
    {
      this.table := table;
      copies := [];
    }

    /** copy_records_to_table with the five data columns. */
    method CopyRecords(records: seq<DataRow<Time>>)
      modifies this
      ensures copies == old(copies) + [records]
      ensures table == old(table) + records
    {
      copies := copies + [records];
      table := table + records;
    }
  }

  class Importer<Time> {
    const parsers: Parsers<Time>

    constructor(parsers: Parsers<Time>)
      ensures this.parsers == parsers
    {
      this.parsers := parsers;
    }

    /**
      copy_batch: stream one file's reader into the table. The reader is consumed
      by the copy, so a reader that fails aborts it and the table is unchanged.
     */
    method CopyBatch(reader: Result<seq<DataRow<Time>>, ReadError>, connection: Connection<Time>)
      returns (r: Result<(), ReadError>)
      modifies connection
      ensures reader.Err? ==> r == Err(reader.error) && unchanged(connection)
      ensures reader.Ok? ==>
        && r == Ok(())
        && connection.copies == old(connection.copies) + [reader.value]
        && connection.table == old(connection.table) + reader.value
    {
      if reader.Err? {
        return Err(reader.error);
      }
      connection.CopyRecords(reader.value);
      r := Ok(());
    }

    /** One pass of import_data's loop: copy file i's reader into a run that has not failed yet. */
    method ImportFile(i: nat, reader: Result<seq<DataRow<Time>>, ReadError>, connection: Connection<Time>,
                      ghost s: ImportState<Time>, ghost copies0: seq<seq<DataRow<Time>>>,
                      ghost table0: seq<DataRow<Time>>)
      returns (r: Result<(), ImportError>)
      requires s.result.Ok?
      requires connection.copies == copies0 + s.copied
      requires connection.table == table0 + Flatten(s.copied)
      modifies connection
      ensures r == CopyStep(s, i, reader).result
      ensures connection.copies == copies0 + CopyStep(s, i, reader).copied
      ensures connection.table == table0 + Flatten(CopyStep(s, i, reader).copied)
    {
      var copy := CopyBatch(reader, connection);
      if copy.Err? {
        r := Err(FileFailed(i, copy.error));
      } else {
        FlattenSnoc(s.copied, reader.value);
        r := Ok(());
      }
    }

    /** import_data: copy each file's reader in turn; the first failure ends the import. */
    method ImportData(files: seq<DataFile>, connection: Connection<Time>) returns (r: Result<(), ImportError>)
      modifies connection
      ensures var s := Import(files, parsers);
        && r == s.result
        && connection.copies == old(connection.copies) + s.copied
        && connection.table == old(connection.table) + Flatten(s.copied)
    {
      ghost var copies0, table0 := connection.copies, connection.table;
      var readers := GetReaders(files, parsers);
      r := Ok(());
      var i := 0;
      while i < |readers| && r.Ok?
        invariant 0 <= i <= |files|
        invariant r == Import(files[..i], parsers).result
        invariant connection.copies == copies0 + Import(files[..i], parsers).copied
        invariant connection.table == table0 + Flatten(Import(files[..i], parsers).copied)
      {
        ImportNext(files, i, parsers);
        r := ImportFile(i, readers[i], connection, Import(files[..i], parsers), copies0, table0);
        i := i + 1;
      }
      if r.Err? {
        ImportSticky(files, i, parsers);
      } else {
        ImportWhole(files, parsers);
      }
    }
  }
}
