/**
 * The two CSV logs of a measurement run (measurement.py:10-94):
 * `setting_log.csv` and `marker_table.csv`, written in append mode with a
 * header only when the file is new, and the back-fill of the phase-noise
 * columns into the marker table's last row. A file is absent (`None`) or
 * the rows Python's csv module reads back from it; quoting and line
 * endings are not part of this model.
 */
module LogStore {
  import opened Wrappers
  import opened Util

  type Row = seq<string>

  type CsvFile = Option<seq<Row>>

  /** The supply voltage columns, one per channel: supply 1 channels 1-3, then supply 2 channels 1-3. */
  const VoltageColumns: Row := [
    "voltage_INST1_CH1_V", "voltage_INST1_CH2_V", "voltage_INST1_CH3_V",
    "voltage_INST2_CH1_V", "voltage_INST2_CH2_V", "voltage_INST2_CH3_V"]

  /** The six columns `append_phase_data` fills, in the order it fills them. */
  const PhaseColumns: Row := ["jitter_ps", "sno_1kHz", "sno_10kHz", "sno_100kHz", "sno_1MHz", "sno_10MHz"]

  /** The header `save_settings_csv` writes into a new `setting_log.csv`. */
  const SettingsHeader: Row :=
    ["index", "kp", "ki", "init_dco", "freq_Hz", "power_dBm"] + VoltageColumns + ["Temperature", "Humidity"]

  /** The header `append_marker_data` writes into a new `marker_table.csv`. */
  const MarkerHeader: Row :=
    ["index", "freq_Hz"] + VoltageColumns + ["peak_freq_Hz", "amplitude_dBm"] + PhaseColumns

  // ---------------------------------------------------------------------
  // Header-then-append
  // ---------------------------------------------------------------------

  /**
   * One `open(path, 'a')` and `writerow`: a file that does not exist yet
   * gets the header first.
   */
  function AppendRow(file: CsvFile, header: Row, row: Row): seq<Row>
  {
    match file
    case None => [header, row]
    case Some(lines) => lines + [row]
  }

  /** The file after one append per row, in order. */
  function AppendRows(file: CsvFile, header: Row, rows: seq<Row>): CsvFile
  {
    if rows == [] then file
    else Some(AppendRow(AppendRows(file, header, rows[..|rows| - 1]), header, rows[|rows| - 1]))
  }

  /**
   * The header is written once, by the first append to a new file; every
   * append adds exactly one row after what is there.
   */
  lemma {:induction false} HeaderThenAppend(file: CsvFile, header: Row, rows: seq<Row>)
    ensures file.Some? ==> AppendRows(file, header, rows) == Some(file.value + rows)
    ensures file.None? && rows != [] ==> AppendRows(file, header, rows) == Some([header] + rows)
  {
    if rows != [] {
      var init, last := rows[..|rows| - 1], rows[|rows| - 1];
      HeaderThenAppend(file, header, init);
      assert rows == init + [last];
      var prev := AppendRows(file, header, init);
      assert AppendRows(file, header, rows) == Some(AppendRow(prev, header, last));
      if file.Some? {
        assert prev == Some(file.value + init);
        assert AppendRow(prev, header, last) == file.value + init + [last];
        assert file.value + init + [last] == file.value + rows;
      } else if init == [] {
        assert prev == None;
        assert AppendRow(prev, header, last) == [header, last];
        assert [header, last] == [header] + rows;
      } else {
        assert prev == Some([header] + init);
        assert AppendRow(prev, header, last) == [header] + init + [last];
        assert [header] + init + [last] == [header] + rows;
      }
    } else if file.Some? {
      assert file.value + rows == file.value;
    }
  }

  /** Appending rows in two batches is appending them all. */
  lemma {:induction false} AppendRowsConcat(file: CsvFile, header: Row, rows: seq<Row>, more: seq<Row>)
    ensures AppendRows(AppendRows(file, header, rows), header, more) == AppendRows(file, header, rows + more)
  {
    if more != [] {
      AppendRowsConcat(file, header, rows, more[..|more| - 1]);
      assert (rows + more)[..|rows + more| - 1] == rows + more[..|more| - 1];
    } else {
      assert rows + more == rows;
    }
  }

  /**
   * The row `save_settings_csv` writes: index, Kp, Ki, initial DCO code,
   * frequency, power, the six supply voltages, temperature and humidity.
   */
  function SettingsRow(idx: int, kp: int, ki: int, initDco: int, freq: int, power: int,
                       volts: seq<int>, temp: string, humid: string): Row
    requires |volts| == 6
  {
    [IntToString(idx), IntToString(kp), IntToString(ki), IntToString(initDco),
     IntToString(freq), IntToString(power)]
    + seq(6, j requires 0 <= j < 6 => IntToString(volts[j]))
    + [temp, humid]
  }

  /**
   * Each settings cell sits under the header that names it: the index,
   * the loop-filter settings and the frequency in the first columns, and
   * voltage `j` under voltage column `j`.
   */
  lemma SettingsRowColumns(idx: int, kp: int, ki: int, initDco: int, freq: int, power: int,
                           volts: seq<int>, temp: string, humid: string)
    requires |volts| == 6
    ensures var row := SettingsRow(idx, kp, ki, initDco, freq, power, volts, temp, humid);
      && |row| == |SettingsHeader|
      && SettingsHeader[0] == "index" && row[0] == IntToString(idx)
      && SettingsHeader[1] == "kp" && row[1] == IntToString(kp)
      && SettingsHeader[2] == "ki" && row[2] == IntToString(ki)
      && SettingsHeader[3] == "init_dco" && row[3] == IntToString(initDco)
      && SettingsHeader[4] == "freq_Hz" && row[4] == IntToString(freq)
      && (forall j :: 0 <= j < 6 ==> SettingsHeader[6 + j] == VoltageColumns[j] && row[6 + j] == IntToString(volts[j]))
  {
  }

  /**
   * The row `append_marker_data` writes: index, set frequency, the six
   * measured supply voltages, the peak frequency and amplitude; the six
   * phase columns are left for the back-fill.
   */
  function MarkerRow(idx: int, freq: int, status: seq<string>, peakFreq: string, amplitude: string): Row
  {
    [IntToString(idx), IntToString(freq)] + status + [peakFreq, amplitude]
  }

  // ---------------------------------------------------------------------
  // append_phase_data
  // ---------------------------------------------------------------------

  datatype BackFillError =
    | MissingFile   // `open(path, 'r')` raises
    | EmptyFile     // `rows[0]` raises
    | NoDataRows    // `data_rows[-1]` raises

  /** `header.index(name)`: the first position holding `name`. */
  function IndexOf(header: Row, name: string): (i: nat)
    requires name in header
    ensures i < |header| && header[i] == name
    ensures forall j :: 0 <= j < i ==> header[j] != name
  {
    if header[0] == name then 0 else 1 + IndexOf(header[1..], name)
  }

  /** `n` empty cells. */
  function Blanks(n: nat): Row
  {
    seq(n, _ => "")
  }

  /** The last row after `while len(last_row) < len(header): last_row.append('')`. */
  function Padded(row: Row, n: nat): Row
  {
    if |row| < n then row + Blanks(n - |row|) else row
  }

  /** One `if name not in header` block: add the column, or overwrite its cell. */
  function PutColumn(header: Row, last: Row, name: string, value: string): (Row, Row)
    requires |header| <= |last|
  {
    if name !in header then (header + [name], last + [value])
    else (header, last[IndexOf(header, name) := value])
  }

  /** The first `k` of the six blocks, in order. */
  function PutColumns(header: Row, last: Row, values: Row, k: nat): (r: (Row, Row))
    requires |values| == 6 && k <= 6 && |header| <= |last|
    ensures |r.0| <= |r.1|
  {
    if k == 0 then (header, last)
    else
      var prev := PutColumns(header, last, values, k - 1);
      PutColumn(prev.0, prev.1, PhaseColumns[k - 1], values[k - 1])
  }

  /**
   * `append_phase_data` on the marker table's rows: pad the last row to
   * the header's length, fill the six phase columns, and write the table
   * back. `values` is the jitter followed by the five spot-noise values.
   */
  function BackFill(file: CsvFile, values: Row): Result<seq<Row>, BackFillError>
    requires |values| == 6
  {
    match file
    case None => Err(MissingFile)
    case Some(lines) =>
      if |lines| == 0 then Err(EmptyFile)
      else if |lines| == 1 then Err(NoDataRows)
      else
        var header := lines[0];
        var filled := PutColumns(header, Padded(lines[|lines| - 1], |header|), values, |values|);
        Ok([filled.0] + lines[1..|lines| - 1] + [filled.1])
  }

  lemma PhaseColumnsDistinct()
    ensures forall i, j :: 0 <= i < j < 6 ==> PhaseColumns[i] != PhaseColumns[j]
  {
    assert PhaseColumns[0][0] == 'j';
    assert PhaseColumns[1][4] == '1' && |PhaseColumns[1]| == 8 && PhaseColumns[1][5] == 'k';
    assert PhaseColumns[2][5] == '0' && |PhaseColumns[2]| == 9;
    assert PhaseColumns[3][6] == '0' && |PhaseColumns[3]| == 10;
    assert PhaseColumns[4][4] == '1' && |PhaseColumns[4]| == 8 && PhaseColumns[4][5] == 'M';
    assert PhaseColumns[5][5] == '0' && |PhaseColumns[5]| == 9 && PhaseColumns[5][6] == 'M';
    assert PhaseColumns[2][6] == 'k';
  }

  /** Adding a column does not move the first occurrence of a name already there. */
  lemma IndexOfAppend(header: Row, name: string, x: string)
    requires x in header
    ensures x in header + [name] && IndexOf(header + [name], x) == IndexOf(header, x)
  {
    var i := IndexOf(header, x);
    var i' := IndexOf(header + [name], x);
    assert (header + [name])[i] == x;
  }

  /** A name of the original header is found at the same place in any extension. */
  lemma IndexOfPrefix(header: Row, h: Row, x: string)
    requires x in header && |header| <= |h| && h[..|header|] == header
    ensures x in h && IndexOf(h, x) == IndexOf(header, x)
  {
    var i := IndexOf(header, x);
    assert h[i] == header[i];
    assert forall j :: 0 <= j < i ==> h[j] == header[j];
  }

  /**
   * What the first `k` blocks keep: the header only grows, by names among
   * the first `k` phase columns; the last row only grows, and a cell keeps
   * its value unless its header name is one of those columns.
   */
  lemma {:induction false} PutColumnsFrame(header: Row, last: Row, values: Row, k: nat)
    requires |values| == 6 && k <= 6 && |header| <= |last|
    ensures var r := PutColumns(header, last, values, k);
      && |header| <= |r.0| <= |header| + k && r.0[..|header|] == header
      && (forall i :: |header| <= i < |r.0| ==> r.0[i] in PhaseColumns[..k])
      && |last| <= |r.1| && |r.1| - |last| == |r.0| - |header|
      && (forall i :: 0 <= i < |last| && (i >= |header| || header[i] !in PhaseColumns[..k]) ==> r.1[i] == last[i])
  {
    if k > 0 {
      PutColumnsFrame(header, last, values, k - 1);
      PhaseColumnsDistinct();
      var prev := PutColumns(header, last, values, k - 1);
      var name := PhaseColumns[k - 1];
      assert PhaseColumns[..k] == PhaseColumns[..k - 1] + [name];
      assert name !in PhaseColumns[..k - 1];
      PutColumnFramed(header, last, prev.0, prev.1, PhaseColumns[..k - 1], name, values[k - 1]);
    }
  }

  /**
   * `h` and `l` are `header` and `last` after blocks for the columns
   * `names`: the header grew only by those columns, the row as much, and
   * the row changed only under those columns.
   */
  predicate Framed(header: Row, last: Row, h: Row, l: Row, names: Row)
  {
    && |header| <= |h| <= |header| + |names| && h[..|header|] == header
    && (forall i :: |header| <= i < |h| ==> h[i] in names)
    && |last| <= |l| && |l| - |last| == |h| - |header|
    && (forall i :: 0 <= i < |last| && (i >= |header| || header[i] !in names) ==> l[i] == last[i])
  }

  /** One more block, for a column not among the earlier ones, keeps the frame. */
  lemma PutColumnFramed(header: Row, last: Row, h: Row, l: Row, names: Row, name: string, value: string)
    requires |h| <= |l| && Framed(header, last, h, l, names) && name !in names
    ensures var r := PutColumn(h, l, name, value);
      Framed(header, last, r.0, r.1, names + [name])
  {
    if name in h {
      var idx := IndexOf(h, name);
      assert idx < |header| && header[idx] == name;
    }
  }

  /** After the first `k` blocks, each of their columns is in the header and the last row holds its value there. */
  predicate Stored(h: Row, l: Row, values: Row, k: nat)
    requires |values| == 6 && k <= 6
  {
    forall j :: 0 <= j < k ==>
      PhaseColumns[j] in h && IndexOf(h, PhaseColumns[j]) < |l| && l[IndexOf(h, PhaseColumns[j])] == values[j]
  }

  /**
   * Starting from a last row as long as the header, every block leaves
   * its value under its column, and the row stays as long as the header.
   */
  lemma {:induction false} PutColumnsStores(header: Row, last: Row, values: Row, k: nat)
    requires |values| == 6 && k <= 6 && |header| == |last|
    ensures var r := PutColumns(header, last, values, k);
      |r.0| == |r.1| && Stored(r.0, r.1, values, k)
  {
    if k > 0 {
      PutColumnsStores(header, last, values, k - 1);
      var prev := PutColumns(header, last, values, k - 1);
      PutColumnStores(prev.0, prev.1, values, k - 1);
    }
  }

  /** One block keeps the earlier blocks' values and stores its own. */
  lemma PutColumnStores(h: Row, l: Row, values: Row, k: nat)
    requires |values| == 6 && k < 6 && |h| == |l| && Stored(h, l, values, k)
    ensures var r := PutColumn(h, l, PhaseColumns[k], values[k]);
      |r.0| == |r.1| && Stored(r.0, r.1, values, k + 1)
  {
    PhaseColumnsDistinct();
    var name := PhaseColumns[k];
    var r := PutColumn(h, l, name, values[k]);
    if name !in h {
      forall j | 0 <= j < k
        ensures PhaseColumns[j] in r.0 && r.1[IndexOf(r.0, PhaseColumns[j])] == values[j]
      {
        IndexOfAppend(h, name, PhaseColumns[j]);
      }
      assert IndexOf(r.0, name) == |h| by {
        assert forall i :: 0 <= i < |h| ==> r.0[i] == h[i];
      }
    } else {
      var idx := IndexOf(h, name);
      forall j | 0 <= j < k
        ensures r.1[IndexOf(r.0, PhaseColumns[j])] == values[j]
      {
        assert h[IndexOf(h, PhaseColumns[j])] != name;
      }
    }
  }

  /** Blocks that find every column already holding its value change nothing. */
  lemma {:induction false} PutColumnsStable(h: Row, l: Row, values: Row, k: nat)
    requires |values| == 6 && k <= 6 && |h| <= |l| && Stored(h, l, values, 6)
    ensures PutColumns(h, l, values, k) == (h, l)
  {
    if k > 0 {
      PutColumnsStable(h, l, values, k - 1);
      var name := PhaseColumns[k - 1];
      assert l[IndexOf(h, name) := values[k - 1]] == l;
    }
  }

  /**
   * The back-fill fails exactly when the file is missing, empty, or has
   * no data row. Otherwise it changes only the header and the last row:
   * the rows between are untouched, the header keeps its names and gains
   * at most the six phase columns, and a last-row cell changes only under
   * one of those columns or past the old end of the row.
   */
  lemma BackFillFrame(file: CsvFile, values: Row)
    requires |values| == 6
    ensures var r := BackFill(file, values);
      && (r.Err? <==> file.None? || |file.value| < 2)
      && (file.None? ==> r == Err(MissingFile))
      && (file.Some? && |file.value| == 0 ==> r == Err(EmptyFile))
      && (file.Some? && |file.value| == 1 ==> r == Err(NoDataRows))
      && (r.Ok? ==>
        var lines, out := file.value, r.value;
        var header, last := lines[0], lines[|lines| - 1];
        && |out| == |lines|
        && (forall i :: 1 <= i < |lines| - 1 ==> out[i] == lines[i])
        && |header| <= |out[0]| <= |header| + 6 && out[0][..|header|] == header
        && (forall i :: |header| <= i < |out[0]| ==> out[0][i] in PhaseColumns)
        && |last| <= |out[|out| - 1]|
        && (forall i :: 0 <= i < |last| && (i >= |header| || header[i] !in PhaseColumns) ==>
              out[|out| - 1][i] == last[i]))
  {
    if file.Some? && |file.value| >= 2 {
      var lines := file.value;
      var header, last := lines[0], lines[|lines| - 1];
      var padded := Padded(last, |header|);
      PutColumnsFrame(header, padded, values, |values|);
      assert PhaseColumns[..6] == PhaseColumns;
      var filled := PutColumns(header, padded, values, |values|);
      var out := BackFill(file, values).value;
      assert out[0] == filled.0 && out[|out| - 1] == filled.1;
      forall i | 1 <= i < |lines| - 1
        ensures out[i] == lines[i]
      {
        assert out[i] == lines[1..|lines| - 1][i - 1];
      }
      assert |padded| - |last| <= |header| - |last| || |padded| == |last|;
      forall i | 0 <= i < |last| && (i >= |header| || header[i] !in PhaseColumns)
        ensures out[|out| - 1][i] == last[i]
      {
        assert padded[i] == last[i];
      }
    }
  }

  /**
   * When the last row is no longer than the header (every row
   * `append_marker_data` writes), the back-fill leaves the last row as
   * long as the new header and the value of each phase column under that
   * column's first occurrence in the header.
   */
  lemma BackFillStores(lines: seq<Row>, values: Row)
    requires |values| == 6 && |lines| >= 2 && |lines[|lines| - 1]| <= |lines[0]|
    ensures BackFill(Some(lines), values).Ok?
    ensures var out := BackFill(Some(lines), values).value;
      |out[0]| == |out[|out| - 1]| && Stored(out[0], out[|out| - 1], values, 6)
  {
    var header := lines[0];
    PutColumnsStores(header, Padded(lines[|lines| - 1], |header|), values, |values|);
  }

  /**
   * Running the back-fill again with the same values leaves the table as
   * the first run left it.
   */
  lemma BackFillIdempotent(lines: seq<Row>, values: Row)
    requires |values| == 6 && |lines| >= 2 && |lines[|lines| - 1]| <= |lines[0]|
    ensures BackFill(Some(lines), values).Ok?
    ensures BackFill(Some(BackFill(Some(lines), values).value), values) == BackFill(Some(lines), values)
  {
    BackFillStores(lines, values);
    var out := BackFill(Some(lines), values).value;
    var h, l := out[0], out[|out| - 1];
    assert Padded(l, |h|) == l;
    PutColumnsStable(h, l, values, |values|);
    assert [h] + out[1..|out| - 1] + [l] == out;
  }

  // ---------------------------------------------------------------------
  // One measurement point after another
  // ---------------------------------------------------------------------

  /** The six values `append_phase_data` takes: the jitter and the five spot-noise levels. */
  datatype Phase = Phase(jitter: string, sno1kHz: string, sno10kHz: string, sno100kHz: string, sno1MHz: string, sno10MHz: string)

  /** The phase values in the order of `PhaseColumns`. */
  function PhaseCells(p: Phase): Row
  {
    [p.jitter, p.sno1kHz, p.sno10kHz, p.sno100kHz, p.sno1MHz, p.sno10MHz]
  }

  /** One point's marker data: the row `append_marker_data` writes and the values back-filled into it. */
  datatype MarkerEntry = MarkerEntry(row: Row, phase: Phase)

  /**
   * The marker table after one point: `append_marker_data` adds the row,
   * then `append_phase_data` fills its phase columns; when the back-fill
   * raises, the appended row stays as it is.
   */
  function MarkerStep(file: CsvFile, e: MarkerEntry): CsvFile
  {
    var appended := AppendRow(file, MarkerHeader, e.row);
    match BackFill(Some(appended), PhaseCells(e.phase))
    case Ok(lines) => Some(lines)
    case Err(_) => Some(appended)
  }

  /** A file after one `step` per entry, in order. */
  function Replay<E>(file: CsvFile, step: (CsvFile, E) -> CsvFile, entries: seq<E>): CsvFile
  {
    if entries == [] then file
    else step(Replay(file, step, entries[..|entries| - 1]), entries[|entries| - 1])
  }

  /** Replaying two batches of entries is replaying them all. */
  lemma {:induction false} ReplayConcat<E>(file: CsvFile, step: (CsvFile, E) -> CsvFile, entries: seq<E>, more: seq<E>)
    ensures Replay(Replay(file, step, entries), step, more) == Replay(file, step, entries + more)
  {
    if more == [] {
      assert entries + more == entries;
    } else {
      ReplayConcat(file, step, entries, more[..|more| - 1]);
      assert (entries + more)[..|entries + more| - 1] == entries + more[..|more| - 1];
    }
  }

  /**
   * The back-fill after an append fails only on a marker file that exists
   * but is empty: the appended row is then taken for the header and no
   * data row is left.
   */
  lemma MarkerStepFails(file: CsvFile, e: MarkerEntry)
    ensures BackFill(Some(AppendRow(file, MarkerHeader, e.row)), PhaseCells(e.phase)).Err? <==> file == Some([])
    ensures file == Some([]) ==> BackFill(Some(AppendRow(file, MarkerHeader, e.row)), PhaseCells(e.phase)) == Err(NoDataRows)
    ensures MarkerStep(file, e).Some? && MarkerStep(file, e) != Some([])
  {
  }

  /** A sixteen-column header whose columns 10 to 15 are the phase columns, found there by `header.index`. */
  predicate PhaseColumnsLast(header: Row)
  {
    && |header| == 16
    && forall j :: 0 <= j < 6 ==> PhaseColumns[j] in header && IndexOf(header, PhaseColumns[j]) == 10 + j
  }

  /** The marker header ends with the six phase columns. */
  lemma MarkerHeaderPhaseColumns()
    ensures PhaseColumnsLast(MarkerHeader)
  {
    PhaseColumnsDistinct();
    forall j | 0 <= j < 6
      ensures PhaseColumns[j] in MarkerHeader && IndexOf(MarkerHeader, PhaseColumns[j]) == 10 + j
    {
      var name := PhaseColumns[j];
      assert MarkerHeader[10 + j] == name;
      assert name[0] == 'j' || name[0] == 's';
      assert forall i :: 0 <= i < 10 ==> MarkerHeader[i][0] != 'j' && MarkerHeader[i][0] != 's';
      assert forall i :: 10 <= i < 10 + j ==> MarkerHeader[i] == PhaseColumns[i - 10];
    }
  }

  /**
   * On such a header, a ten-cell row padded to sixteen cells gets the
   * first `k` phase values in columns 10 to `9 + k`.
   */
  lemma {:induction false} PutColumnsLast(header: Row, row: Row, values: Row, k: nat)
    requires PhaseColumnsLast(header) && |row| == 10 && |values| == 6 && k <= 6
    ensures PutColumns(header, Padded(row, 16), values, k) == (header, row + values[..k] + Blanks(6 - k))
  {
    if k > 0 {
      PutColumnsLast(header, row, values, k - 1);
      var prev := row + values[..k - 1] + Blanks(7 - k);
      var name := PhaseColumns[k - 1];
      assert name in header && IndexOf(header, name) == 10 + k - 1;
      assert PutColumns(header, Padded(row, 16), values, k) == (header, prev[10 + k - 1 := values[k - 1]]);
      FillCell(row, values, k);
    } else {
      assert row + values[..0] + Blanks(6) == row + Blanks(6);
    }
  }

  /** Writing the `k`-th phase value over its blank cell. */
  lemma FillCell(row: Row, values: Row, k: nat)
    requires |row| == 10 && |values| == 6 && 0 < k <= 6
    ensures (row + values[..k - 1] + Blanks(7 - k))[10 + k - 1 := values[k - 1]] == row + values[..k] + Blanks(6 - k)
  {
    var l := (row + values[..k - 1] + Blanks(7 - k))[10 + k - 1 := values[k - 1]];
    forall i | 0 <= i < 16
      ensures l[i] == (row + values[..k] + Blanks(6 - k))[i]
    {
      if i < 10 {
        assert l[i] == row[i];
      } else if i < 10 + k - 1 {
        assert l[i] == values[i - 10];
      }
    }
  }

  /**
   * Appending a ten-cell row to a table whose header ends with the phase
   * columns and back-filling it gives that row followed by the six phase
   * values.
   */
  lemma BackFillLast(lines: seq<Row>, row: Row, phase: Row)
    requires |lines| >= 1 && PhaseColumnsLast(lines[0]) && |row| == 10 && |phase| == 6
    ensures BackFill(Some(lines + [row]), phase) == Ok(lines + [row + phase])
  {
    var header := lines[0];
    PutColumnsLast(header, row, phase, |phase|);
    var filled := PutColumns(header, Padded(row, 16), phase, |phase|);
    assert filled.1 == row + phase by {
      assert phase[..|phase|] == phase;
    }
    var all := lines + [row];
    assert [filled.0] + all[1..|all| - 1] + [filled.1] == lines + [row + phase];
  }

  /** No file yet, or a file that starts with `header`. */
  predicate HeadedBy(file: CsvFile, header: Row)
  {
    file.None? || (|file.value| >= 1 && file.value[0] == header)
  }

  /** A new file gets `header`; an existing one keeps its lines. */
  function Base(file: CsvFile, header: Row): seq<Row>
  {
    match file
    case None => [header]
    case Some(lines) => lines
  }

  /** One row per entry, in order. */
  function RowsOf<E>(row: E -> Row, entries: seq<E>): seq<Row>
  {
    seq(|entries|, k requires 0 <= k < |entries| => row(entries[k]))
  }

  /**
   * A step that adds one row for its entry to every file headed by
   * `header` adds, over a replay, one row per entry in order.
   */
  lemma {:induction false} ReplayRows<E>(file: CsvFile, header: Row, step: (CsvFile, E) -> CsvFile, row: E -> Row, entries: seq<E>)
    requires HeadedBy(file, header)
    requires forall f, e :: e in entries && HeadedBy(f, header) ==> step(f, e) == Some(Base(f, header) + [row(e)])
    ensures entries != [] ==> Replay(file, step, entries) == Some(Base(file, header) + RowsOf(row, entries))
  {
    if entries != [] {
      var n := |entries| - 1;
      var init := entries[..n];
      var prev := Replay(file, step, init);
      assert forall e :: e in init ==> e in entries;
      ReplayRows(file, header, step, row, init);
      assert HeadedBy(prev, header) && Base(prev, header) == Base(file, header) + RowsOf(row, init) by {
        if n == 0 {
          assert prev == file;
        }
      }
      assert entries[n] in entries;
      var base := Base(file, header);
      var rows := RowsOf(row, entries);
      assert Replay(file, step, entries) == step(prev, entries[n]);
      assert rows == RowsOf(row, init) + [row(entries[n])];
      assert base + rows == Base(prev, header) + [row(entries[n])];
    }
  }

  /** A point appended to a table with the marker header ends as its row followed by its phase values. */
  lemma MarkerStepRow(file: CsvFile, e: MarkerEntry)
    requires HeadedBy(file, MarkerHeader) && |e.row| == 10
    ensures MarkerStep(file, e) == Some(Base(file, MarkerHeader) + [e.row + PhaseCells(e.phase)])
  {
    assert AppendRow(file, MarkerHeader, e.row) == Base(file, MarkerHeader) + [e.row];
    MarkerHeaderPhaseColumns();
    BackFillLast(Base(file, MarkerHeader), e.row, PhaseCells(e.phase));
  }

  /** The completed row of one point: its marker row followed by its six phase values. */
  function CompletedRow(e: MarkerEntry): Row
  {
    e.row + PhaseCells(e.phase)
  }

  /**
   * Starting from no marker file, or from one that begins with the marker
   * header, every point adds one row: its ten cells followed by its six
   * phase values, in the order the points were taken.
   */
  lemma MarkerLogRows(file: CsvFile, entries: seq<MarkerEntry>)
    requires HeadedBy(file, MarkerHeader)
    requires forall k :: 0 <= k < |entries| ==> |entries[k].row| == 10
    ensures entries != [] ==> Replay(file, MarkerStep, entries) == Some(Base(file, MarkerHeader) + RowsOf(CompletedRow, entries))
  {
    forall f, e | e in entries && HeadedBy(f, MarkerHeader)
      ensures MarkerStep(f, e) == Some(Base(f, MarkerHeader) + [CompletedRow(e)])
    {
      MarkerStepRow(f, e);
    }
    ReplayRows(file, MarkerHeader, MarkerStep, CompletedRow, entries);
  }

  /** A marker table that did not exist is created by the first entry and then holds one completed row per entry. */
  lemma FreshMarkerLog(entries: seq<MarkerEntry>)
    requires forall k :: 0 <= k < |entries| ==> |entries[k].row| == 10
    ensures entries == [] <==> Replay(None, MarkerStep, entries).None?
    ensures entries != [] ==> Replay(None, MarkerStep, entries) == Some([MarkerHeader] + RowsOf(CompletedRow, entries))
  {
    MarkerLogRows(None, entries);
  }

  /**
   * The body of `append_phase_data` between reading and rewriting the
   * table: pad the last row with empty cells to the header's length, then
   * add or overwrite each of the six phase columns in turn.
   */
  method FillPhaseColumns(header: Row, lastRow: Row, values: Row) returns (header': Row, lastRow': Row)
    requires |values| == 6
    ensures (header', lastRow') == PutColumns(header, Padded(lastRow, |header|), values, 6)
  {
    lastRow' := lastRow;
    while |lastRow'| < |header|
      invariant |lastRow| <= |lastRow'| && Padded(lastRow', |header|) == Padded(lastRow, |header|)
      decreases |header| - |lastRow'|
    {
      assert Padded(lastRow' + [""], |header|) == Padded(lastRow', |header|);
      lastRow' := lastRow' + [""];
    }
    ghost var padded := lastRow';
    header' := header;
    for k := 0 to 6
      invariant (header', lastRow') == PutColumns(header, padded, values, k)
    {
      var name := PhaseColumns[k];
      if name !in header' {
        header' := header' + [name];
        lastRow' := lastRow' + [values[k]];
      } else {
        var idx := IndexOf(header', name);
        lastRow' := lastRow'[idx := values[k]];
      }
    }
  }

  // ---------------------------------------------------------------------
  // The log folder
  // ---------------------------------------------------------------------

  /** The two log files of one run's timestamped folder. */
  class LogFolder {
    var settingLog: CsvFile
    var markerTable: CsvFile

    /** A new timestamped folder holds neither file. */
    constructor ()
      ensures settingLog == None && markerTable == None
    {
      settingLog := None;
      markerTable := None;
    }

    /** `save_settings_csv` (measurement.py:10-19): one settings row, after the header if the file is new. */
    method SaveSettingsCsv(kp: int, ki: int, initDco: int, freq: int, power: int, volts: seq<int>,
                           idx: int, temp: string, humid: string)
      requires |volts| == 6
      modifies this`settingLog
      ensures settingLog == Some(AppendRow(old(settingLog), SettingsHeader,
                                           SettingsRow(idx, kp, ki, initDco, freq, power, volts, temp, humid)))
    {
      var row := SettingsRow(idx, kp, ki, initDco, freq, power, volts, temp, humid);
      if settingLog.None? {
        settingLog := Some([SettingsHeader, row]);
      } else {
        settingLog := Some(settingLog.value + [row]);
      }
    }

    /** `append_marker_data` (measurement.py:21-30): one marker row, after the header if the file is new. */
    method AppendMarkerData(peakFreq: string, amplitude: string, freq: int, status: seq<string>, idx: int)
      modifies this`markerTable
      ensures markerTable == Some(AppendRow(old(markerTable), MarkerHeader, MarkerRow(idx, freq, status, peakFreq, amplitude)))
    {
      var row := MarkerRow(idx, freq, status, peakFreq, amplitude);
      if markerTable.None? {
        markerTable := Some([MarkerHeader, row]);
      } else {
        markerTable := Some(markerTable.value + [row]);
      }
    }

    /**
     * `append_phase_data` (measurement.py:32-94): read the table back, pad
     * the last row, fill the six phase columns and rewrite the file. The
     * error cases are the exceptions the source raises; the file is then
     * left as it was.
     */
    method AppendPhaseData(values: Row) returns (r: Result<(), BackFillError>)
      requires |values| == 6
      modifies this`markerTable
      ensures BackFill(old(markerTable), values).Err? ==>
        r == Err(BackFill(old(markerTable), values).error) && markerTable == old(markerTable)
      ensures BackFill(old(markerTable), values).Ok? ==>
        r == Ok(()) && markerTable == Some(BackFill(old(markerTable), values).value)
    {
      if markerTable.None? {
        return Err(MissingFile);
      }
      var rows := markerTable.value;
      if |rows| == 0 {
        return Err(EmptyFile);
      }
      var header := rows[0];
      var dataRows := rows[1..];
      if |dataRows| == 0 {
        return Err(NoDataRows);
      }
      var lastRow;
      header, lastRow := FillPhaseColumns(header, dataRows[|dataRows| - 1], values);
      dataRows := dataRows[|dataRows| - 1 := lastRow];
      markerTable := Some([header] + dataRows);
      assert [header] + dataRows == [header] + rows[1..|rows| - 1] + [lastRow];
      r := Ok(());
    }
  }
}
