/**
 * The record-building loop of `fetch_crypto_data`. The page is given as the
 * cell texts of its table rows in document order; loading the page and
 * waiting for it to render are outside the model.
 */
module Scraper {
  import opened Common
  import opened Text
  import opened Table

  /** The texts of the `td` cells of one table row. */
  type Row = seq<string>

  /** Only the first ten rows of the page are looked at. */
  const MaxRows: nat := 10

  /** A row yields a record only when it has at least seven cells. */
  const MinCells: nat := 7

  /** The record built from one row: cell 1 contributes only its first line, the others are copied. */
  function MakeCoin(cells: Row, timestamp: string): Coin
    requires |cells| >= MinCells
  {
    Coin(timestamp, cells[0], Split(cells[1], '\n')[0], cells[2], cells[3], cells[4], cells[5], cells[6])
  }

  /** Coin c is the record of row cells captured at timestamp. */
  predicate Transcribes(c: Coin, cells: Row, timestamp: string)
  {
    && |cells| >= MinCells
    && c.time == timestamp
    && c.rank == cells[0]
    && IsFirstPiece(c.name, cells[1], '\n')
    && c.price == cells[2]
    && c.change1h == cells[3]
    && c.change24h == cells[4]
    && c.change7d == cells[5]
    && c.marketCap == cells[6]
  }

  /** The rows that yield a record, in page order. */
  function WideRows(rows: seq<Row>): (r: seq<Row>)
    ensures |r| <= |rows|
    ensures IsSubsequence(r, rows)
    ensures forall k :: 0 <= k < |r| ==> |r[k]| >= MinCells
  {
    if rows == [] then []
    else
      var init := WideRows(rows[..|rows| - 1]);
      var last := rows[|rows| - 1];
      assert rows == rows[..|rows| - 1] + [last];
      if |last| >= MinCells then
        SubsequenceSnoc(init, rows[..|rows| - 1], last);
        init + [last]
      else
        SubsequenceExtend(init, rows[..|rows| - 1], last);
        init
  }

  /** Every row with at least seven cells is kept, as often as it occurs; no other row is. */
  lemma {:induction false} WideRowsCounts(rows: seq<Row>)
    ensures forall row :: multiset(WideRows(rows))[row] == if |row| >= MinCells then multiset(rows)[row] else 0
    ensures forall row :: row in rows && |row| >= MinCells ==> row in WideRows(rows)
    decreases |rows|
  {
    if rows != [] {
      var init := rows[..|rows| - 1];
      var last := rows[|rows| - 1];
      WideRowsCounts(init);
      assert rows == init + [last];
      assert multiset(rows) == multiset(init) + multiset{last};
      if |last| >= MinCells {
        assert WideRows(rows) == WideRows(init) + [last];
        assert multiset(WideRows(rows)) == multiset(WideRows(init)) + multiset{last};
      } else {
        assert WideRows(rows) == WideRows(init);
      }
      forall row | row in rows && |row| >= MinCells ensures row in WideRows(rows) {
        assert row in multiset(rows);
        assert row in multiset(WideRows(rows));
      }
    }
  }

  /** The records the loop produces from rows, in row order. */
  function Records(rows: seq<Row>, timestamp: string): seq<Coin>
  {
    if rows == [] then []
    else
      var init := Records(rows[..|rows| - 1], timestamp);
      var last := rows[|rows| - 1];
      if |last| < MinCells then init else init + [MakeCoin(last, timestamp)]
  }

  /**
   * There is one record per row with at least seven cells, in row order, and
   * each record transcribes its row.
   */
  lemma {:induction false} RecordsTranscribeWideRows(rows: seq<Row>, timestamp: string)
    ensures |Records(rows, timestamp)| == |WideRows(rows)|
    ensures forall k :: 0 <= k < |WideRows(rows)| ==> Transcribes(Records(rows, timestamp)[k], WideRows(rows)[k], timestamp)
    decreases |rows|
  {
    if rows != [] {
      RecordsTranscribeWideRows(rows[..|rows| - 1], timestamp);
    }
  }

  /**
   * `fetch_crypto_data` once the page has rendered: the first ten rows, each
   * skipped when it has fewer than seven cells, otherwise turned into a record
   * that carries the one timestamp taken before the loop.
   */
  method FetchCryptoData(page: seq<Row>, timestamp: string) returns (data: seq<Coin>)
    ensures data == Records(Take(page, MaxRows), timestamp)
    ensures |data| <= Min(MaxRows, |page|)
    ensures forall k :: 0 <= k < |data| ==> data[k].time == timestamp
  {
    var rows := Take(page, MaxRows);
    data := [];
    for i := 0 to |rows|
      invariant data == Records(rows[..i], timestamp)
    {
      assert rows[..i + 1][..i] == rows[..i];
      var cols := rows[i];
      if |cols| < MinCells {
        continue;
      }
      data := data + [MakeCoin(cols, timestamp)];
    }
    assert rows[..|rows|] == rows;
    RecordsTranscribeWideRows(rows, timestamp);
  }

  /** One more row at the end adds its record, or nothing when it is narrow. */
  lemma RecordsSnoc(rows: seq<Row>, row: Row, timestamp: string)
    ensures Records(rows + [row], timestamp)
         == Records(rows, timestamp) + (if |row| < MinCells then [] else [MakeCoin(row, timestamp)])
  {
    assert (rows + [row])[..|rows|] == rows;
  }

  /** A row with fewer than seven cells contributes nothing, wherever it stands. */
  lemma {:induction false} NarrowRowSkipped(before: seq<Row>, row: Row, after: seq<Row>, timestamp: string)
    requires |row| < MinCells
    ensures Records(before + [row] + after, timestamp) == Records(before + after, timestamp)
    decreases |after|
  {
    if after == [] {
      assert before + [row] + after == before + [row];
      RecordsSnoc(before, row, timestamp);
      assert before + after == before;
    } else {
      var init := after[..|after| - 1];
      var last := after[|after| - 1];
      NarrowRowSkipped(before, row, init, timestamp);
      assert before + [row] + after == (before + [row] + init) + [last];
      RecordsSnoc(before + [row] + init, last, timestamp);
      assert before + after == (before + init) + [last];
      RecordsSnoc(before + init, last, timestamp);
    }
  }

  /** Cells after the seventh never reach a record. */
  lemma {:induction false} ExtraCellsIgnored(rows: seq<Row>, rows': seq<Row>, timestamp: string)
    requires |rows| == |rows'|
    requires forall k :: 0 <= k < |rows| ==> (|rows[k]| >= MinCells <==> |rows'[k]| >= MinCells)
    requires forall k :: 0 <= k < |rows| && |rows[k]| >= MinCells ==> rows[k][..MinCells] == rows'[k][..MinCells]
    ensures Records(rows, timestamp) == Records(rows', timestamp)
    decreases |rows|
  {
    if rows != [] {
      var n := |rows| - 1;
      ExtraCellsIgnored(rows[..n], rows'[..n], timestamp);
      if |rows[n]| >= MinCells {
        assert rows[n][..MinCells] == rows'[n][..MinCells];
        assert forall j :: 0 <= j < MinCells ==> rows[n][j] == rows'[n][j] by {
          forall j | 0 <= j < MinCells ensures rows[n][j] == rows'[n][j] {
            assert rows[n][j] == rows[n][..MinCells][j];
            assert rows'[n][j] == rows'[n][..MinCells][j];
          }
        }
      }
    }
  }
}
