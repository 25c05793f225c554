/**
 * The report file and the batch loop of `main` (main.py): the header that
 * `initialize_csv` writes, the records `append_to_csv` appends, and the loop
 * that collects the workers' results in completion order into a buffer and
 * flushes it every `BATCH_SAVE_INTERVAL` results and once more at the end.
 */
module Writer {
  import opened Strings
  import opened Worker

  const BatchSaveInterval := 5

  /** The header line: the column names in file order. */
  function Header(): (h: seq<Cell>)
    ensures |h| == |Columns|
    ensures forall i :: 0 <= i < |Columns| ==> h[i] == Text(ColumnName(Columns[i]))
  {
    seq(|Columns|, i requires 0 <= i < |Columns| => Text(ColumnName(Columns[i])))
  }

  /** The record `df[cols]` writes for a row: its cells in column order. */
  function Record(r: Row): (rec: seq<Cell>)
    ensures |rec| == |Columns|
    ensures forall i :: 0 <= i < |Columns| ==> rec[i] == Get(r, Columns[i])
  {
    seq(|Columns|, i requires 0 <= i < |Columns| => Get(r, Columns[i]))
  }

  /** Different rows give different records: the record loses nothing. */
  lemma RecordInjective(a: Row, b: Row)
    requires Record(a) == Record(b)
    ensures a == b
  {
    assert Record(a)[0] == Record(b)[0] && Record(a)[1] == Record(b)[1] && Record(a)[2] == Record(b)[2];
    assert Record(a)[3] == Record(b)[3] && Record(a)[4] == Record(b)[4] && Record(a)[5] == Record(b)[5];
    assert Record(a)[6] == Record(b)[6] && Record(a)[7] == Record(b)[7] && Record(a)[8] == Record(b)[8];
  }

  function Records(rows: seq<Row>): (recs: seq<seq<Cell>>)
    ensures |recs| == |rows|
    ensures forall k :: 0 <= k < |rows| ==> recs[k] == Record(rows[k])
  {
    seq(|rows|, k requires 0 <= k < |rows| => Record(rows[k]))
  }

  lemma RecordsAppend(a: seq<Row>, b: seq<Row>)
    ensures Records(a + b) == Records(a) + Records(b)
  {
    var l, r := Records(a + b), Records(a) + Records(b);
    assert |l| == |r|;
    forall k | 0 <= k < |l|
      ensures l[k] == r[k]
    {
      if k >= |a| {
        assert (a + b)[k] == b[k - |a|];
      }
    }
  }

  /** The output file: whether it exists, and its lines in order. */
  class CsvFile {
    var present: bool
    var records: seq<seq<Cell>>

    constructor (present: bool, records: seq<seq<Cell>>)
      ensures this.present == present && this.records == records
    {
      this.present := present;
      this.records := records;
    }

    /** `initialize_csv`: a missing file is created holding the header only; an existing one is left alone. */
    method InitializeCsv()
      modifies this
      ensures present
      ensures records == if old(present) then old(records) else [Header()]
    {
      if !present {
        present := true;
        records := [Header()];
      }
    }

    /** `append_to_csv`: nothing for an empty batch, otherwise every row's record, in order. */
    method AppendToCsv(rows: seq<Row>)
      modifies this
      ensures rows == [] ==> present == old(present) && records == old(records)
      ensures rows != [] ==> present && records == old(records) + Records(rows)
    {
      if |rows| == 0 {
        return;
      }
      present := true;
      records := records + Records(rows);
    }
  }

  /** How one worker task ended: with an exception, or with its rows. */
  datatype Outcome = Failed(error: string) | Done(rows: seq<Row>)

  /** The rows the loop collects: those of every task that ended normally, in completion order. */
  function AllRows(outcomes: seq<Outcome>): seq<Row>
  {
    if |outcomes| == 0 then []
    else
      var last := outcomes[|outcomes| - 1];
      AllRows(outcomes[..|outcomes| - 1]) + (if last.Done? then last.rows else [])
  }

  /** Whether the loop flushes after the task that completed `i`-th (from 0): it ended normally at a multiple of 5. */
  predicate FlushesAt(outcomes: seq<Outcome>, i: nat)
    requires i < |outcomes|
  {
    outcomes[i].Done? && (i + 1) % BatchSaveInterval == 0
  }

  /** `batch_rows` after the first `|outcomes|` results. */
  function Pending(outcomes: seq<Outcome>): seq<Row>
  {
    if |outcomes| == 0 then []
    else
      var n := |outcomes| - 1;
      if FlushesAt(outcomes, n) then []
      else Pending(outcomes[..n]) + (if outcomes[n].Done? then outcomes[n].rows else [])
  }

  /** The rows written by the loop's flushes after the first `|outcomes|` results. */
  function Written(outcomes: seq<Outcome>): seq<Row>
  {
    if |outcomes| == 0 then []
    else
      var n := |outcomes| - 1;
      if FlushesAt(outcomes, n) then Written(outcomes[..n]) + Pending(outcomes[..n]) + outcomes[n].rows
      else Written(outcomes[..n])
  }

  /**
   * No row is lost or repeated: what has been flushed, followed by the
   * buffer, is every collected row in completion order.
   */
  lemma {:induction false} WrittenThenPending(outcomes: seq<Outcome>)
    ensures Written(outcomes) + Pending(outcomes) == AllRows(outcomes)
  {
    if |outcomes| > 0 {
      var n := |outcomes| - 1;
      var init := outcomes[..n];
      WrittenThenPending(init);
      var extra := if outcomes[n].Done? then outcomes[n].rows else [];
      Assoc(Written(init), Pending(init), extra);
      if FlushesAt(outcomes, n) {
        assert Written(outcomes) + Pending(outcomes) == Written(init) + Pending(init) + extra;
      }
    }
  }

  /**
   * A task that ends with an exception writes nothing and keeps the buffer,
   * even at a multiple of 5: the flush is skipped, not lost.
   */
  lemma FailureKeepsBuffer(outcomes: seq<Outcome>, e: string)
    ensures Written(outcomes + [Failed(e)]) == Written(outcomes)
    ensures Pending(outcomes + [Failed(e)]) == Pending(outcomes)
  {
    assert (outcomes + [Failed(e)])[..|outcomes|] == outcomes;
  }

  /** After a flush the buffer is empty and the file holds every collected row. */
  lemma FlushWritesAll(outcomes: seq<Outcome>)
    requires |outcomes| > 0 && FlushesAt(outcomes, |outcomes| - 1)
    ensures Pending(outcomes) == [] && Written(outcomes) == AllRows(outcomes)
  {
    WrittenThenPending(outcomes);
    assert Written(outcomes) + [] == Written(outcomes);
  }

  lemma FlushRecords(prev: seq<seq<Cell>>, written: seq<Row>, batch: seq<Row>)
    ensures prev + Records(written) + Records(batch) == prev + Records(written + batch)
  {
    RecordsAppend(written, batch);
    Assoc(prev, Records(written), Records(batch));
  }

  /** One result more: a flush moves the buffer and the new rows to the file, otherwise the rows join the buffer. */
  lemma LoopStep(outcomes: seq<Outcome>, i: nat)
    requires i < |outcomes|
    ensures var before, after := outcomes[..i], outcomes[..i + 1];
      var extra := if outcomes[i].Done? then outcomes[i].rows else [];
      && (FlushesAt(outcomes, i) ==> Pending(after) == [] && Written(after) == Written(before) + (Pending(before) + extra))
      && (!FlushesAt(outcomes, i) ==> Pending(after) == Pending(before) + extra && Written(after) == Written(before))
  {
    var before, after := outcomes[..i], outcomes[..i + 1];
    assert after[..i] == before && after[i] == outcomes[i];
    Assoc(Written(before), Pending(before), if outcomes[i].Done? then outcomes[i].rows else []);
  }

  /**
   * The loop of `main` over the results in completion order, then the final
   * flush of what is left: the file gains the records of every collected row,
   * in order, whatever tasks failed and wherever the flushes fell.
   */
  method CollectResults(csv: CsvFile, outcomes: seq<Outcome>)
    modifies csv
    ensures csv.records == old(csv.records) + Records(AllRows(outcomes))
  {
    var batchRows: seq<Row> := [];
    for i := 0 to |outcomes|
      invariant csv.records == old(csv.records) + Records(Written(outcomes[..i]))
      invariant batchRows == Pending(outcomes[..i])
    {
      LoopStep(outcomes, i);
      ghost var written := Written(outcomes[..i]);
      match outcomes[i] {
        case Failed(_) =>
        case Done(res) =>
          if |res| > 0 {
            batchRows := batchRows + res;
          }
          if (i + 1) % BatchSaveInterval == 0 {
            csv.AppendToCsv(batchRows);
            FlushRecords(old(csv.records), written, batchRows);
            batchRows := [];
          }
      }
    }
    assert outcomes[..|outcomes|] == outcomes;
    WrittenThenPending(outcomes);
    if |batchRows| > 0 {
      csv.AppendToCsv(batchRows);
    }
    RecordsAppend(Written(outcomes), batchRows);
  }
}
