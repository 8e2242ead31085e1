/** The message buffer and the batch drain of the bot. handle_message puts
    every text at the tail of the queue; process_queue takes the whole queue
    at once, empties it, and tries one sheet append per text, in order, going
    on to the next text when an append fails. */
module Ingest {
  import opened Chars
  import opened Patterns
  import opened Extract

  /** A sheet row; a field the text does not carry is None. */
  type Row = seq<Option<string>>

  /** The third cell, the same for every row. */
  const ShiftCell := "Shift (8 hours)"

  /** A list of amounts as the list extractors produce it: nonempty digit
      runs joined by ", ", so only digits, commas and spaces. */
  predicate AmountList(v: string) {
    Join(SplitOn(v, ", "), ", ") == v &&
    (forall k :: 0 <= k < |v| ==> IsDigit(v[k]) || v[k] in ", ") &&
    (forall j :: 0 <= j < |SplitOn(v, ", ")| ==> Digits(SplitOn(v, ", ")[j]))
  }

  /** A name or creator cell: one line without edge whitespace. */
  predicate LineCell(cell: Option<string>) {
    cell.Some? ==> '\n' !in cell.value && Trimmed(cell.value)
  }

  /** A shift date cell: ends in PST. */
  predicate DateCell(cell: Option<string>) {
    cell.Some? ==> EndsWith(cell.value, "PST")
  }

  /** A tip or PPV cell: a list of amounts. */
  predicate AmountsCell(cell: Option<string>) {
    cell.Some? ==> AmountList(cell.value)
  }

  /** A sale cell: one amount. */
  predicate AmountCell(cell: Option<string>) {
    cell.Some? ==> Digits(cell.value)
  }

  /** The format every row has: nine cells, name, date, the shift, creator,
      tips, PPVs, gross sale and the net sale twice. */
  predicate RowFormat(row: Row) {
    |row| == 9 && LineCell(row[0]) && DateCell(row[1]) && row[2] == Some(ShiftCell) &&
    LineCell(row[3]) && AmountsCell(row[4]) && AmountsCell(row[5]) &&
    AmountCell(row[6]) && AmountCell(row[7]) && row[8] == row[7]
  }

  /** The row process_queue builds for one text, in the sheet's column order. */
  function ReportRow(text: string): (row: Row)
    ensures |row| == 9 && row[2] == Some(ShiftCell) && row[8] == row[7]
  {
    [ExtractName(text), ExtractDateShift(text), Some(ShiftCell), ExtractCreator(text),
     ExtractVipTips(text), ExtractPpvs(text), ExtractTotalGrossSale(text),
     ExtractTotalNetSale(text), ExtractTotalNetSale(text)]
  }

  /** Whatever the text, its row has the sheet's format; the name and
      creator cells are empty exactly when their labels are missing, and
      the sale cells are empty when theirs are. */
  lemma ReportRowFormat(text: string)
    ensures RowFormat(ReportRow(text))
    ensures ReportRow(text)[0].None? <==> !ContainsCI(text, NameLabel)
    ensures ReportRow(text)[3].None? <==> !ContainsCI(text, CreatorLabel)
    ensures !ContainsCI(text, GrossLabel) ==> ReportRow(text)[6].None?
    ensures !ContainsCI(text, NetLabel) ==> ReportRow(text)[7].None? && ReportRow(text)[8].None?
  {
    var name, date, creator := ExtractName(text), ExtractDateShift(text), ExtractCreator(text);
    var tips, ppvs := ExtractVipTips(text), ExtractPpvs(text);
    var gross, net := ExtractTotalGrossSale(text), ExtractTotalNetSale(text);
    assert LineCell(name) && LineCell(creator);
    assert DateCell(date);
    assert AmountsCell(tips) && AmountsCell(ppvs);
    assert AmountCell(gross) && AmountCell(net);
    CellsFormat(name, date, creator, tips, ppvs, gross, net);
  }

  /** Nine cells laid out in column order have the row format when each
      cell has its own. */
  lemma CellsFormat(name: Option<string>, date: Option<string>, creator: Option<string>,
                    tips: Option<string>, ppvs: Option<string>, gross: Option<string>, net: Option<string>)
    requires LineCell(name) && DateCell(date) && LineCell(creator)
    requires AmountsCell(tips) && AmountsCell(ppvs) && AmountCell(gross) && AmountCell(net)
    ensures RowFormat([name, date, Some(ShiftCell), creator, tips, ppvs, gross, net, net])
  {
  }

  /** The rows of a batch, one per text, in order. */
  function Rows(batch: seq<string>): (rs: seq<Row>)
    ensures |rs| == |batch|
  {
    seq(|batch|, k requires 0 <= k < |batch| => ReportRow(batch[k]))
  }

  /** The rows the sheet keeps when rows are appended as the sheet's calls
      number n, n + 1, ... and the calls in failing raise. */
  function Kept(rows: seq<Row>, n: nat, failing: set<nat>): (kept: seq<Row>)
    ensures |kept| <= |rows|
    decreases |rows|
  {
    if rows == [] then []
    else (if n in failing then [] else [rows[0]]) + Kept(rows[1..], n + 1, failing)
  }

  /** Appending one more row appends it to what is kept, unless its call fails. */
  lemma {:induction false} KeptSnoc(rows: seq<Row>, row: Row, n: nat, failing: set<nat>)
    ensures Kept(rows + [row], n, failing) ==
      Kept(rows, n, failing) + (if n + |rows| in failing then [] else [row])
    decreases |rows|
  {
    if rows != [] {
      assert (rows + [row])[1..] == rows[1..] + [row];
      KeptSnoc(rows[1..], row, n + 1, failing);
    } else {
      assert (rows + [row])[1..] == [];
    }
  }

  /** When no call fails, every row is kept, in order. */
  lemma {:induction false} KeptAll(rows: seq<Row>, n: nat, failing: set<nat>)
    requires forall k :: n <= k < n + |rows| ==> k !in failing
    ensures Kept(rows, n, failing) == rows
    decreases |rows|
  {
    if rows != [] {
      KeptAll(rows[1..], n + 1, failing);
    }
  }

  /** Failure isolation: a row whose own call succeeds is written, at its
      own place between the rows written before it and those after it,
      whatever happens to the other calls. */
  lemma {:induction false} KeptIncludes(rows: seq<Row>, n: nat, failing: set<nat>, k: nat)
    requires k < |rows| && n + k !in failing
    ensures Kept(rows, n, failing) ==
      Kept(rows[..k], n, failing) + [rows[k]] + Kept(rows[k + 1..], n + k + 1, failing)
    ensures rows[k] in Kept(rows, n, failing)
    decreases k
  {
    if k > 0 {
      KeptIncludes(rows[1..], n + 1, failing, k - 1);
      assert rows[1..][..k - 1] == rows[..k][1..];
      assert rows[1..][k..] == rows[k + 1..];
    }
  }

  /** Only the failed call's row is missing: with one failing call, every
      other row is kept, in order. */
  lemma {:induction false} KeptSkipsOne(rows: seq<Row>, n: nat, j: nat)
    requires j < |rows|
    ensures Kept(rows, n, {n + j}) == rows[..j] + rows[j + 1..]
    decreases j
  {
    if j == 0 {
      KeptAll(rows[1..], n + 1, {n});
    } else {
      KeptSkipsOne(rows[1..], n + 1, j - 1);
      assert rows[1..][..j - 1] == rows[1..j];
      assert rows[1..][j..] == rows[j + 1..];
      assert rows[..j] == [rows[0]] + rows[1..j];
    }
  }

  /** The Google sheet, seen through append_row. Every call is recorded in
      attempts; a call whose number (counting from 0) is in failing raises
      and adds nothing, any other call adds its row to rows. */
  class Sheet {
    var rows: seq<Row>
    var attempts: seq<Row>
    const failing: set<nat>

    constructor (failing: set<nat>)
      ensures rows == [] && attempts == [] && this.failing == failing
    {
      rows := [];
      attempts := [];
      this.failing := failing;
    }

    method AppendRow(row: Row) returns (ok: bool)
      modifies this
      ensures attempts == old(attempts) + [row]
      ensures ok <==> |old(attempts)| !in failing
      ensures rows == if ok then old(rows) + [row] else old(rows)
    {
      ok := |attempts| !in failing;
      attempts := attempts + [row];
      if ok {
        rows := rows + [row];
      }
    }

    /** Appends the rows one call at a time, in order; a failed call is
        caught and the next row is tried. */
    method AppendRows(batch: seq<Row>)
      modifies this
      ensures attempts == old(attempts) + batch
      ensures rows == old(rows) + Kept(batch, |old(attempts)|, failing)
    {
      ghost var n := |attempts|;
      for k := 0 to |batch|
        invariant attempts == old(attempts) + batch[..k]
        invariant rows == old(rows) + Kept(batch[..k], n, failing)
      {
        var ok := AppendRow(batch[k]);
        assert batch[..k + 1] == batch[..k] + [batch[k]];
        KeptSnoc(batch[..k], batch[k], n, failing);
      }
      assert batch[..|batch|] == batch;
    }
  }

  /** The bot's message buffer, with the sheet its drain writes to. */
  class Bot {
    var queue: seq<string>
    const sheet: Sheet

    constructor (sheet: Sheet)
      ensures queue == [] && this.sheet == sheet
    {
      queue := [];
      this.sheet := sheet;
    }

    /** handle_message: the text goes to the tail of the queue. */
    method HandleMessage(text: string)
      modifies this
      ensures queue == old(queue) + [text]
    {
      queue := queue + [text];
    }

    /** process_queue: takes and clears the whole queue in one step, then
        tries one append per text in queue order; a failed append is caught
        and the loop goes on. */
    method ProcessQueue()
      modifies this, sheet
      ensures queue == []
      ensures old(queue) == [] ==> sheet.rows == old(sheet.rows) && sheet.attempts == old(sheet.attempts)
      ensures sheet.attempts == old(sheet.attempts) + Rows(old(queue))
      ensures sheet.rows == old(sheet.rows) + Kept(Rows(old(queue)), |old(sheet.attempts)|, sheet.failing)
    {
      if queue == [] {
        return;
      }
      var batch := queue;
      queue := [];
      sheet.AppendRows(Rows(batch));
    }
  }

  /** Texts A, B, C buffered in that order are attempted as the rows of
      A, B, C, in that order, by the next drain; a second drain right after
      attempts nothing. */
  method DrainInOrder(a: string, b: string, c: string) returns (first: seq<Row>, second: seq<Row>)
    ensures first == Rows([a, b, c])
    ensures second == []
  {
    var sheet := new Sheet({});
    var bot := new Bot(sheet);
    bot.HandleMessage(a);
    bot.HandleMessage(b);
    bot.HandleMessage(c);
    assert bot.queue == [a, b, c];
    bot.ProcessQueue();
    first := sheet.attempts;
    bot.ProcessQueue();
    second := sheet.attempts[|first|..];
  }

  /** A text that arrives after a drain has taken the queue waits for the
      next drain, and is not lost. */
  method LateTextWaits(a: string, b: string) returns (first: seq<Row>, second: seq<Row>)
    ensures first == Rows([a])
    ensures second == Rows([b])
  {
    var sheet := new Sheet({});
    var bot := new Bot(sheet);
    bot.HandleMessage(a);
    assert bot.queue == [a];
    bot.ProcessQueue();
    first := sheet.attempts;
    bot.HandleMessage(b);
    assert bot.queue == [b];
    bot.ProcessQueue();
    second := sheet.attempts[|first|..];
  }

  /** When the second of three appends raises, the first and third rows are
      still written, and all three were attempted. */
  method MiddleFailure(r0: Row, r1: Row, r2: Row) returns (attempted: seq<Row>, written: seq<Row>)
    ensures attempted == [r0, r1, r2]
    ensures written == [r0, r2]
  {
    var sheet := new Sheet({1});
    sheet.AppendRows([r0, r1, r2]);
    KeptSkipsOne([r0, r1, r2], 0, 1);
    attempted, written := sheet.attempts, sheet.rows;
  }
}
