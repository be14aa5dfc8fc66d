/**
 * import_investments and export_investments of main_2.py. CSV tokenising is
 * not modelled: a file is its sequence of records, each a sequence of fields.
 * Python's float(...) and int(...) on text are the partial functions
 * `toReal` and `toInt`, given by the caller.
 */
module ImportExport {

  import opened Wrappers
  import opened Ledger

  /** Why a data record was skipped; each skip is one printed diagnostic. */
  datatype Skip = WrongFieldCount(record: seq<string>) | ConversionFailed(record: seq<string>)

  datatype Parsed = Accepted(row: Row) | Rejected(skip: Skip)

  /** One data record: five fields, amount through float(...), sell through
      int(...) (either raising ValueError skips the record), coin, currency
      and date kept as text. */
  function ParseRecord(rec: seq<string>, toReal: string -> Option<real>, toInt: string -> Option<int>): (p: Parsed)
    ensures p.Accepted? <==> |rec| == 5 && toReal(rec[2]).Some? && toInt(rec[3]).Some?
    ensures |rec| != 5 ==> p == Rejected(WrongFieldCount(rec))
    ensures |rec| == 5 && p.Rejected? ==> p == Rejected(ConversionFailed(rec))
  {
    if |rec| != 5 then Rejected(WrongFieldCount(rec))
    else match (toReal(rec[2]), toInt(rec[3]))
      case (Some(amount), Some(sell)) => Accepted(Row(rec[0], rec[1], amount, sell, rec[4]))
      case _ => Rejected(ConversionFailed(rec))
  }

  /** The rows accepted from a sequence of data records, in record order. */
  function ValidRows(recs: seq<seq<string>>, toReal: string -> Option<real>, toInt: string -> Option<int>): seq<Row>
  {
    if recs == [] then []
    else match ParseRecord(recs[0], toReal, toInt)
      case Accepted(r) => [r] + ValidRows(recs[1..], toReal, toInt)
      case Rejected(_) => ValidRows(recs[1..], toReal, toInt)
  }

  /** The skip diagnostics for a sequence of data records, in record order. */
  function Skips(recs: seq<seq<string>>, toReal: string -> Option<real>, toInt: string -> Option<int>): seq<Skip>
  {
    if recs == [] then []
    else match ParseRecord(recs[0], toReal, toInt)
      case Accepted(_) => Skips(recs[1..], toReal, toInt)
      case Rejected(s) => [s] + Skips(recs[1..], toReal, toInt)
  }

  lemma {:induction false} ValidRowsAppend(a: seq<seq<string>>, b: seq<seq<string>>,
                                           toReal: string -> Option<real>, toInt: string -> Option<int>)
    ensures ValidRows(a + b, toReal, toInt) == ValidRows(a, toReal, toInt) + ValidRows(b, toReal, toInt)
    ensures Skips(a + b, toReal, toInt) == Skips(a, toReal, toInt) + Skips(b, toReal, toInt)
  {
    if a == [] {
      assert a + b == b;
    } else {
      assert (a + b)[1..] == a[1..] + b;
      ValidRowsAppend(a[1..], b, toReal, toInt);
    }
  }

  /** The batch and the diagnostics together hold exactly one entry per data record. */
  lemma {:induction false} EveryRecordAccountedFor(recs: seq<seq<string>>,
                                                   toReal: string -> Option<real>, toInt: string -> Option<int>)
    ensures |ValidRows(recs, toReal, toInt)| + |Skips(recs, toReal, toInt)| == |recs|
  {
    if recs != [] {
      EveryRecordAccountedFor(recs[1..], toReal, toInt);
    }
  }

  /** A row is imported exactly when some record parses to it. */
  lemma {:induction false} ValidRowsAreParsedRecords(recs: seq<seq<string>>, r: Row,
                                                     toReal: string -> Option<real>, toInt: string -> Option<int>)
    ensures r in ValidRows(recs, toReal, toInt)
        <==> exists i :: 0 <= i < |recs| && ParseRecord(recs[i], toReal, toInt) == Accepted(r)
  {
    if recs != [] {
      ValidRowsAreParsedRecords(recs[1..], r, toReal, toInt);
      if exists i :: 0 <= i < |recs[1..]| && ParseRecord(recs[1..][i], toReal, toInt) == Accepted(r) {
        var i :| 0 <= i < |recs[1..]| && ParseRecord(recs[1..][i], toReal, toInt) == Accepted(r);
        assert recs[i + 1] == recs[1..][i];
      }
      if exists i :: 0 <= i < |recs| && ParseRecord(recs[i], toReal, toInt) == Accepted(r) {
        var i :| 0 <= i < |recs| && ParseRecord(recs[i], toReal, toInt) == Accepted(r);
        if i > 0 {
          assert recs[1..][i - 1] == recs[i];
        }
      }
    }
  }

  /** Nothing is imported exactly when every data record is skipped. */
  lemma {:induction false} NoValidRowsIffAllSkipped(recs: seq<seq<string>>,
                                                    toReal: string -> Option<real>, toInt: string -> Option<int>)
    ensures ValidRows(recs, toReal, toInt) == []
        <==> forall i :: 0 <= i < |recs| ==> ParseRecord(recs[i], toReal, toInt).Rejected?
  {
    if recs != [] {
      NoValidRowsIffAllSkipped(recs[1..], toReal, toInt);
      if forall i :: 0 <= i < |recs[1..]| ==> ParseRecord(recs[1..][i], toReal, toInt).Rejected? {
        if ParseRecord(recs[0], toReal, toInt).Rejected? {
          forall i | 0 <= i < |recs| ensures ParseRecord(recs[i], toReal, toInt).Rejected? {
            if i > 0 {
              assert recs[i] == recs[1..][i - 1];
            }
          }
        }
      } else {
        var i :| 0 <= i < |recs[1..]| && !ParseRecord(recs[1..][i], toReal, toInt).Rejected?;
        assert recs[i + 1] == recs[1..][i];
      }
    }
  }

  /** A record without exactly five fields is never stored, and the records
      after it are still processed. */
  lemma WrongFieldCountSkipped(a: seq<seq<string>>, rec: seq<string>, b: seq<seq<string>>,
                               toReal: string -> Option<real>, toInt: string -> Option<int>)
    requires |rec| != 5
    ensures ValidRows(a + [rec] + b, toReal, toInt) == ValidRows(a, toReal, toInt) + ValidRows(b, toReal, toInt)
    ensures Skips(a + [rec] + b, toReal, toInt)
         == Skips(a, toReal, toInt) + [WrongFieldCount(rec)] + Skips(b, toReal, toInt)
  {
    assert [rec][1..] == [];
    assert ValidRows([rec], toReal, toInt) == [] && Skips([rec], toReal, toInt) == [WrongFieldCount(rec)];
    ValidRowsAppend(a + [rec], b, toReal, toInt);
    ValidRowsAppend(a, [rec], toReal, toInt);
  }

  /** A five-field record whose amount or sell field does not convert is
      skipped, and the records after it are still processed. */
  lemma ConversionFailureSkipped(a: seq<seq<string>>, rec: seq<string>, b: seq<seq<string>>,
                                 toReal: string -> Option<real>, toInt: string -> Option<int>)
    requires |rec| == 5 && (toReal(rec[2]).None? || toInt(rec[3]).None?)
    ensures ValidRows(a + [rec] + b, toReal, toInt) == ValidRows(a, toReal, toInt) + ValidRows(b, toReal, toInt)
    ensures Skips(a + [rec] + b, toReal, toInt)
         == Skips(a, toReal, toInt) + [ConversionFailed(rec)] + Skips(b, toReal, toInt)
  {
    assert [rec][1..] == [];
    assert ParseRecord(rec, toReal, toInt) == Rejected(ConversionFailed(rec));
    assert ValidRows([rec], toReal, toInt) == [] && Skips([rec], toReal, toInt) == [ConversionFailed(rec)];
    ValidRowsAppend(a + [rec], b, toReal, toInt);
    ValidRowsAppend(a, [rec], toReal, toInt);
  }

  /** A five-field record that converts is stored as converted, with no sign
      check on the amount, no clamping of sell to 0 or 1, and the date as
      raw text, in its place among the other imported rows. */
  lemma ConvertedRecordStored(a: seq<seq<string>>, rec: seq<string>, b: seq<seq<string>>,
                              toReal: string -> Option<real>, toInt: string -> Option<int>)
    requires |rec| == 5 && toReal(rec[2]).Some? && toInt(rec[3]).Some?
    ensures ValidRows(a + [rec] + b, toReal, toInt)
         == ValidRows(a, toReal, toInt) + [Row(rec[0], rec[1], toReal(rec[2]).value, toInt(rec[3]).value, rec[4])]
            + ValidRows(b, toReal, toInt)
    ensures Skips(a + [rec] + b, toReal, toInt) == Skips(a, toReal, toInt) + Skips(b, toReal, toInt)
  {
    assert [rec][1..] == [];
    assert ParseRecord(rec, toReal, toInt) == Accepted(Row(rec[0], rec[1], toReal(rec[2]).value, toInt(rec[3]).value, rec[4]));
    assert Skips([rec], toReal, toInt) == [];
    ValidRowsAppend(a + [rec], b, toReal, toInt);
    ValidRowsAppend(a, [rec], toReal, toInt);
  }

  /** Three data records, the second with an amount that does not convert:
      two rows are imported, in order, and one diagnostic is reported. */
  lemma ThreeRecordExample(r1: seq<string>, r2: seq<string>, r3: seq<string>,
                           toReal: string -> Option<real>, toInt: string -> Option<int>)
    requires |r1| == 5 && toReal(r1[2]).Some? && toInt(r1[3]).Some?
    requires |r2| == 5 && toReal(r2[2]).None?
    requires |r3| == 5 && toReal(r3[2]).Some? && toInt(r3[3]).Some?
    ensures ValidRows([r1, r2, r3], toReal, toInt)
         == [Row(r1[0], r1[1], toReal(r1[2]).value, toInt(r1[3]).value, r1[4]),
             Row(r3[0], r3[1], toReal(r3[2]).value, toInt(r3[3]).value, r3[4])]
    ensures Skips([r1, r2, r3], toReal, toInt) == [ConversionFailed(r2)]
  {
    ConvertedRecordStored([], r3, [], toReal, toInt);
    assert [] + [r3] + [] == [r3];
    ConversionFailureSkipped([], r2, [r3], toReal, toInt);
    assert [] + [r2] + [r3] == [r2, r3];
    ConvertedRecordStored([], r1, [r2, r3], toReal, toInt);
    assert [] + [r1] + [r2, r3] == [r1, r2, r3];
  }

  /** A converting record whose sell value is 2^63 cannot be bound, so a
      batch holding it is not written. */
  lemma SellBeyondIntegerRange(rec: seq<string>, toReal: string -> Option<real>, toInt: string -> Option<int>)
    requires |rec| == 5 && toReal(rec[2]).Some? && toInt(rec[3]) == Some(0x8000_0000_0000_0000)
    ensures ValidRows([rec], toReal, toInt) != []
    ensures !AllBindable(ValidRows([rec], toReal, toInt))
  {
    ConvertedRecordStored([], rec, [], toReal, toInt);
    assert [] + [rec] + [] == [rec];
    assert !Bindable(ValidRows([rec], toReal, toInt)[0]);
  }

  /** The loop of import_investments: builds the batch and the diagnostics. */
  method CollectRows(recs: seq<seq<string>>, toReal: string -> Option<real>, toInt: string -> Option<int>)
    returns (rows: seq<Row>, skipped: seq<Skip>)
    ensures rows == ValidRows(recs, toReal, toInt)
    ensures skipped == Skips(recs, toReal, toInt)
  {
    rows, skipped := [], [];
    var i := 0;
    while i < |recs|
      invariant 0 <= i <= |recs|
      invariant rows == ValidRows(recs[..i], toReal, toInt)
      invariant skipped == Skips(recs[..i], toReal, toInt)
    {
      var rec := recs[i];
      ValidRowsAppend(recs[..i], [rec], toReal, toInt);
      assert recs[..i + 1] == recs[..i] + [rec];
      if |rec| != 5 {
        skipped := skipped + [WrongFieldCount(rec)];
        i := i + 1;
        continue;
      }
      match (toReal(rec[2]), toInt(rec[3])) {
        case (Some(amount), Some(sell)) =>
          rows := rows + [Row(rec[0], rec[1], amount, sell, rec[4])];
        case _ =>
          skipped := skipped + [ConversionFailed(rec)];
      }
      i := i + 1;
    }
    assert recs[..|recs|] == recs;
  }

  /** How an import ends: an empty file, no row to write, a batch written,
      or a batch the database refused to bind (the command raises). */
  datatype ImportOutcome =
    | EmptyFile
    | NoValidRows(skipped: seq<Skip>)
    | Imported(count: nat, skipped: seq<Skip>)
    | Overflowed(skipped: seq<Skip>)

  /** import_investments: the first record is the header and is skipped
      unread; the surviving data records are appended in one batch, and
      nothing is written when none survives or when a `sell` value of the
      batch does not fit SQLite's 64-bit INTEGER. */
  method ImportInvestments(store: Store, records: seq<seq<string>>,
                           toReal: string -> Option<real>, toInt: string -> Option<int>)
    returns (outcome: ImportOutcome)
    requires store.hasTable
    modifies store
    ensures store.hasTable
    ensures records == [] ==> outcome == EmptyFile && store.rows == old(store.rows)
    ensures records != [] && ValidRows(records[1..], toReal, toInt) == [] ==>
              outcome == NoValidRows(Skips(records[1..], toReal, toInt)) && store.rows == old(store.rows)
    ensures records != [] && ValidRows(records[1..], toReal, toInt) != []
            && AllBindable(ValidRows(records[1..], toReal, toInt)) ==>
              outcome == Imported(|ValidRows(records[1..], toReal, toInt)|, Skips(records[1..], toReal, toInt))
              && store.rows == old(store.rows) + ValidRows(records[1..], toReal, toInt)
    ensures records != [] && ValidRows(records[1..], toReal, toInt) != []
            && !AllBindable(ValidRows(records[1..], toReal, toInt)) ==>
              outcome == Overflowed(Skips(records[1..], toReal, toInt)) && store.rows == old(store.rows)
  {
    if records == [] {
      return EmptyFile;
    }
    var rows, skipped := CollectRows(records[1..], toReal, toInt);
    if rows == [] {
      return NoValidRows(skipped);
    }
    var ok := store.AppendMany(rows);
    if ok {
      outcome := Imported(|rows|, skipped);
    } else {
      outcome := Overflowed(skipped);
    }
  }

  /** A written CSV record: the header, or one ledger row as its raw tuple
      (csv.writer's text formatting of the fields is not modelled). */
  datatype Record = HeaderRecord(names: seq<string>) | DataRecord(row: Row)

  const ExportHeader: seq<string> := ["coin_id", "currency", "amount", "sell", "date"]

  function DataRecords(rows: seq<Row>): (rs: seq<Record>)
    ensures |rs| == |rows|
    ensures forall i :: 0 <= i < |rows| ==> rs[i] == DataRecord(rows[i])
  {
    if rows == [] then [] else [DataRecord(rows[0])] + DataRecords(rows[1..])
  }

  /** The file export_investments is meant to write: the header, then one
      record per ledger row in store order. */
  function ExportTable(rows: seq<Row>): (out: seq<Record>)
    ensures |out| == |rows| + 1
    ensures out[0] == HeaderRecord(ExportHeader)
    ensures forall i :: 0 <= i < |rows| ==> out[i + 1] == DataRecord(rows[i])
  {
    [HeaderRecord(ExportHeader)] + DataRecords(rows)
  }

  /** The ledger rows carried by a sequence of written records. */
  function RowsOf(records: seq<Record>): seq<Row>
  {
    if records == [] then []
    else match records[0]
      case DataRecord(r) => [r] + RowsOf(records[1..])
      case HeaderRecord(_) => RowsOf(records[1..])
  }

  lemma {:induction false} RowsOfDataRecords(rows: seq<Row>)
    ensures RowsOf(DataRecords(rows)) == rows
  {
    if rows != [] {
      assert DataRecords(rows)[1..] == DataRecords(rows[1..]);
      RowsOfDataRecords(rows[1..]);
    }
  }

  /** The records after the header are exactly the ledger, in store order,
      and there is one fewer data record than records in the file. */
  lemma ExportedRowsAreLedger(rows: seq<Row>)
    ensures RowsOf(ExportTable(rows)) == rows
    ensures |ExportTable(rows)| - 1 == |RowsOf(ExportTable(rows))|
  {
    assert ExportTable(rows)[1..] == DataRecords(rows);
    RowsOfDataRecords(rows);
  }

  /** export_investments with the raw row tuples: the file and the reported
      count (the header is not counted). */
  method ExportInvestments(store: Store) returns (file: seq<Record>, count: nat)
    ensures file == ExportTable(store.rows)
    ensures count == |store.rows| && count == |file| - 1
  {
    file := ExportTable(store.rows);
    count := |store.rows|;
  }

  /** What an export run leaves behind when it raises part-way. */
  datatype ExportRun = Exported(file: seq<Record>, count: nat) | Raised(file: seq<Record>)

  /** export_investments as written, with the row factory installed: the
      fetched rows are Investment objects, which csv.writer cannot write, so
      the run raises on the first data row after the header is written. */
  function ExportAsWritten(rows: seq<Row>): (e: ExportRun)
    ensures e.file == [HeaderRecord(ExportHeader)]
    ensures e.Exported? <==> rows == []
  {
    var fetched := seq(|rows|, i requires 0 <= i < |rows| => ToInvestment(rows[i]));
    if fetched == [] then Exported([HeaderRecord(ExportHeader)], 0)
    else Raised([HeaderRecord(ExportHeader)])
  }

  /** On any non-empty ledger the as-written export writes no data row and
      reports no count, where the intended export writes every row. */
  lemma ExportAsWrittenLosesRows(rows: seq<Row>)
    requires rows != []
    ensures ExportAsWritten(rows).Raised?
    ensures RowsOf(ExportAsWritten(rows).file) == []
    ensures RowsOf(ExportTable(rows)) == rows
  {
    ExportedRowsAreLedger(rows);
  }
}
