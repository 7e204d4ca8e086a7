/**
 * The run of `measurement` (measurement.py:96-446): build the axes, then
 * for every DCO code program register 1, for every Kp and Ki program
 * register 0, and for every frequency and voltage combination take one
 * point, logging its settings row, its marker row and its phase values
 * under a running index `total_idx` that starts at 1.
 *
 * The instruments are parameters: `Device` is what the register bank
 * answers to `read_register(2, 20)` after the frames written so far, and
 * `Meter` is what the sensor, the supplies and the analyser report for
 * the point with a given index.
 */
module Sequencer {
  import opened Wrappers
  import opened Util
  import opened Spi
  import opened Registers
  import opened Panel
  import opened Sweep
  import opened LogStore

  // ---------------------------------------------------------------------
  // The instruments
  // ---------------------------------------------------------------------

  /** The bytes `read_register(2, 20)` returns after the given write frames; `None` when the transfer fails. */
  type Device = seq<seq<byte>> -> Option<seq<byte>>

  /**
   * The word of register `addr` in a readback: `hex4_to_bin16` of bytes
   * `2 * addr` and `2 * addr + 1`. A failed transfer, or a buffer too
   * short to index, raises in the source and is `None` here.
   */
  function ReadWord(answer: Option<seq<byte>>, addr: nat): Option<string>
  {
    if answer.Some? && 2 * addr + 1 < |answer.value| then
      Some(ReadBits(answer.value[2 * addr], answer.value[2 * addr + 1]))
    else
      None
  }

  /**
   * The device's answer to a history. The assumptions about devices below
   * are stated over this name, so that they are drawn on only where a
   * proof names the answer it needs.
   */
  function Answer(device: Device, h: seq<seq<byte>>): Option<seq<byte>>
  {
    device(h)
  }

  /** A device whose every readback succeeds and holds both register words. */
  ghost predicate Reliable(device: Device)
  {
    forall h {:trigger Answer(device, h)} :: Answer(device, h).Some? && |Answer(device, h).value| >= 4
  }

  /** The last frame of a history is a write to register 0 or 1. */
  predicate EndsWithWrite(h: seq<seq<byte>>)
  {
    |h| > 0 && |h[|h| - 1]| == 3 && h[|h| - 1][0] < 2
  }

  /** A register bank that reads back the word just written to a register. */
  ghost predicate Echoes(device: Device)
  {
    forall h {:trigger Answer(device, h)} :: EndsWithWrite(h) ==>
      ReadWord(Answer(device, h), h[|h| - 1][0]) == Some(ReadBits(h[|h| - 1][1], h[|h| - 1][2]))
  }

  /** The six `status_voltage` readings, supply 1 channels 1-3 then supply 2 channels 1-3. */
  datatype Supplies = Supplies(ch11: string, ch12: string, ch13: string, ch21: string, ch22: string, ch23: string)

  function SupplyCells(s: Supplies): Row
  {
    [s.ch11, s.ch12, s.ch13, s.ch21, s.ch22, s.ch23]
  }

  /** What the instruments report for one point. */
  datatype Reading = Reading(temp: string, humid: string, peakFreq: string, amplitude: string,
                             supplies: Supplies, phase: Phase)

  /** The readings, by the point's `total_idx`. */
  type Meter = nat -> Reading

  // ---------------------------------------------------------------------
  // Points and what is logged for them
  // ---------------------------------------------------------------------

  /**
   * One point taken: its loop values `[dco, kp, ki, freq, v11, v12, v13,
   * v21, v22, v23]` and the Kp, Ki and DCO values logged for it, which
   * come from the register words read back.
   */
  datatype Visit = Visit(point: seq<int>, kp: nat, ki: nat, initDco: nat)

  predicate Shaped(visits: seq<Visit>)
  {
    forall k :: 0 <= k < |visits| ==> |visits[k].point| == 10
  }

  function Points(visits: seq<Visit>): seq<seq<int>>
  {
    seq(|visits|, k requires 0 <= k < |visits| => visits[k].point)
  }

  /** The logged Kp, Ki and DCO are the loop's own values. */
  predicate Faithful(v: Visit)
  {
    |v.point| == 10 && v.initDco == v.point[0] && v.kp == v.point[1] && v.ki == v.point[2]
  }

  /** Every visit is faithful, stated one visit at a time from the back. */
  predicate AllFaithful(visits: seq<Visit>)
  {
    visits == [] || (AllFaithful(visits[..|visits| - 1]) && Faithful(visits[|visits| - 1]))
  }

  lemma {:induction false} AllFaithfulEach(visits: seq<Visit>)
    ensures AllFaithful(visits) <==> forall k :: 0 <= k < |visits| ==> Faithful(visits[k])
  {
    if visits != [] {
      var init := visits[..|visits| - 1];
      AllFaithfulEach(init);
      assert forall k :: 0 <= k < |init| ==> init[k] == visits[k];
    }
  }

  lemma AllFaithfulConcat(a: seq<Visit>, b: seq<Visit>)
    requires AllFaithful(a) && AllFaithful(b)
    ensures AllFaithful(a + b)
  {
    AllFaithfulEach(a);
    AllFaithfulEach(b);
    AllFaithfulEach(a + b);
    assert forall k :: 0 <= k < |a + b| ==> (a + b)[k] == if k < |a| then a[k] else b[k - |a|];
  }

  /** The six supply voltages of a point, in the settings row's column order. */
  function SettingsVoltages(p: seq<int>): (volts: seq<int>)
    requires |p| == 10
    ensures |volts| == 6 && forall j :: 0 <= j < 6 ==> volts[j] == p[4 + j]
  {
    p[4..10]
  }

  /**
   * The six voltages as measurement.py:389 passes them to
   * `save_settings_csv`: `voltage_2_3` twice and `voltage_2_2` never, so
   * the `voltage_2_2` column holds the `voltage_2_3` value.
   */
  function SettingsVoltagesAsWritten(p: seq<int>): seq<int>
    requires |p| == 10
  {
    [p[4], p[5], p[6], p[7], p[9], p[9]]
  }

  /** The call as written logs the right voltages exactly when supplies 2-2 and 2-3 are set alike. */
  lemma VoltagesAsWrittenAgree(p: seq<int>)
    requires |p| == 10
    ensures SettingsVoltagesAsWritten(p) == SettingsVoltages(p) <==> p[8] == p[9]
    ensures SettingsVoltagesAsWritten(p)[4] == p[9]
  {
    if SettingsVoltagesAsWritten(p) == SettingsVoltages(p) {
      assert SettingsVoltagesAsWritten(p)[4] == SettingsVoltages(p)[4];
    }
  }

  /** A point whose supply 2-2 is at 5 and supply 2-3 at 6 is logged with 6 under `voltage_2_2`. */
  lemma VoltagesAsWrittenDiffer()
    ensures var p := [0, 0, 0, 0, 1, 2, 3, 4, 5, 6];
      SettingsVoltagesAsWritten(p) != SettingsVoltages(p) && SettingsVoltagesAsWritten(p)[4] == 6
  {
    var p := [0, 0, 0, 0, 1, 2, 3, 4, 5, 6];
    VoltagesAsWrittenAgree(p);
  }

  /** The settings row of a point with index `idx`. */
  function SettingsLine(idx: int, v: Visit, power: int, r: Reading): Row
    requires |v.point| == 10
  {
    SettingsRow(idx, v.kp, v.ki, v.initDco, v.point[3], power, SettingsVoltages(v.point), r.temp, r.humid)
  }

  /** The marker row of a point with index `idx` and the phase values filled into it. */
  function MarkerLine(idx: int, v: Visit, r: Reading): MarkerEntry
    requires |v.point| == 10
  {
    MarkerEntry(MarkerRow(idx, v.point[3], SupplyCells(r.supplies), r.peakFreq, r.amplitude), r.phase)
  }

  /** The settings rows of the points, numbered from `idx0`. */
  function SettingsLines(visits: seq<Visit>, idx0: nat, power: int, meter: Meter): seq<Row>
    requires Shaped(visits)
  {
    seq(|visits|, k requires 0 <= k < |visits| => SettingsLine(idx0 + k, visits[k], power, meter(idx0 + k)))
  }

  /** The marker entries of the points, numbered from `idx0`. */
  function MarkerEntries(visits: seq<Visit>, idx0: nat, meter: Meter): seq<MarkerEntry>
    requires Shaped(visits)
  {
    seq(|visits|, k requires 0 <= k < |visits| => MarkerLine(idx0 + k, visits[k], meter(idx0 + k)))
  }

  /**
   * The two log files after the points `visits`, numbered from `idx0`,
   * starting from the files `s0` and `m0`.
   */
  predicate Logged(s0: CsvFile, m0: CsvFile, s: CsvFile, m: CsvFile, visits: seq<Visit>, idx0: nat, power: int, meter: Meter)
  {
    && Shaped(visits)
    && s == AppendRows(s0, SettingsHeader, SettingsLines(visits, idx0, power, meter))
    && m == Replay(m0, MarkerStep, MarkerEntries(visits, idx0, meter))
  }

  /** No point, nothing logged. */
  lemma LoggedNothing(s0: CsvFile, m0: CsvFile, idx0: nat, power: int, meter: Meter)
    ensures Logged(s0, m0, s0, m0, [], idx0, power, meter)
  {
    assert SettingsLines([], idx0, power, meter) == [];
    assert MarkerEntries([], idx0, meter) == [];
  }

  lemma AppendRowsSnoc(file: CsvFile, header: Row, rows: seq<Row>, row: Row)
    ensures AppendRows(file, header, rows + [row]) == Some(AppendRow(AppendRows(file, header, rows), header, row))
  {
    assert (rows + [row])[..|rows|] == rows;
  }

  lemma ReplaySnoc<E>(file: CsvFile, step: (CsvFile, E) -> CsvFile, entries: seq<E>, e: E)
    ensures Replay(file, step, entries + [e]) == step(Replay(file, step, entries), e)
  {
    assert (entries + [e])[..|entries|] == entries;
  }

  lemma SettingsLinesSnoc(visits: seq<Visit>, idx0: nat, power: int, meter: Meter, v: Visit)
    requires Shaped(visits) && |v.point| == 10
    ensures Shaped(visits + [v])
    ensures SettingsLines(visits + [v], idx0, power, meter) ==
            SettingsLines(visits, idx0, power, meter) + [SettingsLine(idx0 + |visits|, v, power, meter(idx0 + |visits|))]
  {
  }

  lemma MarkerEntriesSnoc(visits: seq<Visit>, idx0: nat, meter: Meter, v: Visit)
    requires Shaped(visits) && |v.point| == 10
    ensures Shaped(visits + [v])
    ensures MarkerEntries(visits + [v], idx0, meter) ==
            MarkerEntries(visits, idx0, meter) + [MarkerLine(idx0 + |visits|, v, meter(idx0 + |visits|))]
  {
  }

  /** One more point adds its settings row and its marker step. */
  lemma LoggedStep(s0: CsvFile, m0: CsvFile, s: CsvFile, m: CsvFile, visits: seq<Visit>, idx0: nat,
                   power: int, meter: Meter, v: Visit)
    requires Logged(s0, m0, s, m, visits, idx0, power, meter) && |v.point| == 10
    ensures var idx := idx0 + |visits|;
      Logged(s0, m0, Some(AppendRow(s, SettingsHeader, SettingsLine(idx, v, power, meter(idx)))),
             MarkerStep(m, MarkerLine(idx, v, meter(idx))), visits + [v], idx0, power, meter)
  {
    var idx := idx0 + |visits|;
    var all := visits + [v];
    var rows, line := SettingsLines(visits, idx0, power, meter), SettingsLine(idx, v, power, meter(idx));
    var entries, entry := MarkerEntries(visits, idx0, meter), MarkerLine(idx, v, meter(idx));
    SettingsLinesSnoc(visits, idx0, power, meter, v);
    MarkerEntriesSnoc(visits, idx0, meter, v);
    AppendRowsSnoc(s0, SettingsHeader, rows, line);
    ReplaySnoc(m0, MarkerStep, entries, entry);
  }

  /** A marker table that has seen a point is never empty, so an empty one is where the run began. */
  lemma ReplayEmpty(m0: CsvFile, entries: seq<MarkerEntry>)
    ensures Replay(m0, MarkerStep, entries) == Some([]) <==> m0 == Some([]) && entries == []
  {
    if entries != [] {
      var n := |entries| - 1;
      MarkerStepFails(Replay(m0, MarkerStep, entries[..n]), entries[n]);
    }
  }

  lemma PointsConcat(a: seq<Visit>, b: seq<Visit>)
    ensures Points(a + b) == Points(a) + Points(b)
  {
  }

  /** The first `k + 1` prefixed points are the first `k` and then point `k` with the prefix. */
  lemma PrefixedTake(pre: seq<int>, points: seq<seq<int>>, k: nat)
    requires k < |points|
    ensures Prefixed(pre, points)[..k + 1] == Prefixed(pre, points)[..k] + [pre + points[k]]
  {
  }

  // ---------------------------------------------------------------------
  // Register words
  // ---------------------------------------------------------------------

  /** `binary_reg0` before the loops: the template with `en_dsm` at bit 4 and `dlf_mode` at bit 6. */
  function Reg0Start(enDsm: Bit, dlfMode: Bit): string
  {
    Reg0Template[15 - 4 := BitChar(enDsm)][15 - 6 := BitChar(dlfMode)]
  }

  /** A register 0 word that differs from the starting pattern only in the Ki and Kp fields. */
  predicate Reg0Shape(w: string, enDsm: Bit, dlfMode: Bit)
  {
    IsBits16(w) && w[8..] == Reg0Start(enDsm, dlfMode)[8..]
  }

  /** A register 1 word that differs from the template only in the DCO field. */
  predicate Reg1Shape(w: string)
  {
    IsBits16(w) && w[..6] == Reg1Template[..6]
  }

  /** The run starts from words of both shapes. */
  lemma Reg0StartShape(enDsm: Bit, dlfMode: Bit)
    ensures Reg0Shape(Reg0Start(enDsm, dlfMode), enDsm, dlfMode)
  {
    TemplatesAreBits(0);
    assert Template(0) == Reg0Template;
  }

  lemma Reg1TemplateShape()
    ensures Reg1Shape(Reg1Template)
  {
    TemplatesAreBits(1);
    assert Template(1) == Reg1Template;
  }

  /** Such a register 0 word carries the chosen `en_dsm` and `dlf_mode` bits. */
  lemma Reg0Bits(w: string, enDsm: Bit, dlfMode: Bit)
    requires Reg0Shape(w, enDsm, dlfMode)
    ensures GetBit(w, 4) == enDsm && GetBit(w, 6) == dlfMode
  {
    assert w[11] == w[8..][3] && w[9] == w[8..][1];
  }

  /** Splicing Kp or Ki keeps the shape of register 0. */
  lemma Reg0Splice(w: string, f: Field, v: int, enDsm: Bit, dlfMode: Bit)
    requires Reg0Shape(w, enDsm, dlfMode) && f.hi <= 8 && ValidField(f)
    requires EncodeField(w, f, v).Ok?
    ensures Reg0Shape(EncodeField(w, f, v).value, enDsm, dlfMode)
  {
    EncodeFieldSpec(w, f, v);
    var r := EncodeField(w, f, v).value;
    assert forall i :: 8 <= i < 16 ==> r[i] == w[i];
    assert r[8..] == w[8..];
  }

  /** Splicing the DCO code keeps the shape of register 1. */
  lemma Reg1Splice(w: string, v: int)
    requires Reg1Shape(w) && EncodeField(w, DcoField, v).Ok?
    ensures Reg1Shape(EncodeField(w, DcoField, v).value)
  {
    EncodeFieldSpec(w, DcoField, v);
    var r := EncodeField(w, DcoField, v).value;
    assert forall i :: 0 <= i < 6 ==> r[i] == w[i];
    assert r[..6] == w[..6];
  }

  /** Leading zeros from position `k` on add nothing to the value. */
  lemma {:induction false} ZerosDrop(w: string, k: nat)
    requires IsDigits(w, 2) && k <= 6 <= |w|
    requires forall i :: 0 <= i < 6 ==> w[i] == '0'
    ensures ValueOf(w[k..], 2) == ValueOf(w[6..], 2)
    decreases 6 - k
  {
    if k < 6 {
      ZerosDrop(w, k + 1);
      assert w[k..][1..] == w[k + 1..];
      LeadingZeroDrop(w[k..], 2);
    }
  }

  /**
   * `int("".join(reg1), 2)` of a register 1 word is its DCO code: the six
   * bits above the field are the template's zeros.
   */
  lemma Reg1WordValue(w: string)
    requires Reg1Shape(w)
    ensures ValueOf(w, 2) == FieldValue(w, DcoField)
  {
    Bits16AreDigits(w);
    assert forall i :: 0 <= i < 6 ==> w[i] == w[..6][i];
    ZerosDrop(w, 0);
    assert w[0..] == w && w[6..16] == w[6..];
  }

  /** A write frame that keeps the register templates: register 0 or 1, with the word's fixed bits untouched. */
  predicate KeepsTemplates(frame: seq<byte>, enDsm: Bit, dlfMode: Bit)
  {
    && |frame| == 3
    && (frame[0] == 0 || frame[0] == 1)
    && (frame[0] == 0 ==> Reg0Shape(ReadBits(frame[1], frame[2]), enDsm, dlfMode))
    && (frame[0] == 1 ==> Reg1Shape(ReadBits(frame[1], frame[2])))
  }

  /** Every frame written after the first `n` keeps the templates. */
  predicate WritesKeep(sent: seq<seq<byte>>, n: nat, enDsm: Bit, dlfMode: Bit)
  {
    n <= |sent| && forall i :: n <= i < |sent| ==> KeepsTemplates(sent[i], enDsm, dlfMode)
  }

  /**
   * `write_register(addr, bin16_to_hex4(w))`, then `read_register(2, 20)`
   * and `hex4_to_bin16` of the register's two bytes.
   */
  method Exchange(addr: nat, w: string, sent: seq<seq<byte>>, device: Device)
    returns (sent': seq<seq<byte>>, word: Option<string>)
    requires addr < 2 && IsBits16(w)
    ensures sent' == sent + [RegisterFrame(addr, w)] && EndsWithWrite(sent')
    ensures sent'[|sent'| - 1][0] == addr && ReadBits(sent'[|sent'| - 1][1], sent'[|sent'| - 1][2]) == w
    ensures word == ReadWord(device(sent'), addr)
    ensures Echoes(device) ==> word == Some(w)
    ensures word.Some? ==> IsBits16(word.value)
  {
    RegisterFrameSpec(addr, w);
    var frame := SendRegister(addr, w);
    sent' := sent + [frame];
    var answer := device(sent');
    assert answer == Answer(device, sent');
    if answer.Some? && 2 * addr + 1 < |answer.value| {
      var hi, lo := answer.value[2 * addr], answer.value[2 * addr + 1];
      ReadBitsDecodes(hi, lo);
      word := Hex4ToBin16(WordHex(hi, lo));
    } else {
      word := None;
    }
  }

  // ---------------------------------------------------------------------
  // One point
  // ---------------------------------------------------------------------

  /**
   * The body of the innermost loop (measurement.py:370-445) as far as the
   * logs see it: `save_settings_csv`, `append_marker_data`, then
   * `append_phase_data`, whose error is the exception it raises.
   */
  method MeasurePoint(folder: LogFolder, idx: nat, v: Visit, power: int, r: Reading)
    returns (failed: Option<BackFillError>)
    requires |v.point| == 10
    modifies folder
    ensures folder.settingLog == Some(AppendRow(old(folder.settingLog), SettingsHeader, SettingsLine(idx, v, power, r)))
    ensures folder.markerTable == MarkerStep(old(folder.markerTable), MarkerLine(idx, v, r))
    ensures failed.Some? <==> old(folder.markerTable) == Some([])
    ensures failed.Some? ==> failed.value == NoDataRows
  {
    var e := MarkerLine(idx, v, r);
    MarkerStepFails(folder.markerTable, e);
    folder.SaveSettingsCsv(v.kp, v.ki, v.initDco, v.point[3], power, SettingsVoltages(v.point), idx, r.temp, r.humid);
    folder.AppendMarkerData(r.peakFreq, r.amplitude, v.point[3], SupplyCells(r.supplies), idx);
    var result := folder.AppendPhaseData(PhaseCells(r.phase));
    failed := if result.Err? then Some(result.error) else None;
  }

  /** What one pass of the innermost loop adds to the logs and to the points taken. */
  lemma PointTaken(s0: CsvFile, m0: CsvFile, s: CsvFile, m: CsvFile, visits: seq<Visit>,
                   idx0: nat, power: int, meter: Meter, pre: seq<int>, inner: seq<seq<int>>, k: nat, v: Visit, failed: bool)
    requires Logged(s0, m0, s, m, visits, idx0, power, meter)
    requires k < |inner| && Points(visits) == Prefixed(pre, inner)[..k]
    requires v.point == pre + inner[k] && |v.point| == 10
    requires failed <==> m == Some([])
    ensures var idx := idx0 + |visits|;
      Logged(s0, m0, Some(AppendRow(s, SettingsHeader, SettingsLine(idx, v, power, meter(idx)))),
             MarkerStep(m, MarkerLine(idx, v, meter(idx))), visits + [v], idx0, power, meter)
    ensures Points(visits + [v]) == Prefixed(pre, inner)[..k + 1]
    ensures failed ==> m0 == Some([])
  {
    LoggedStep(s0, m0, s, m, visits, idx0, power, meter, v);
    if failed {
      ReplayEmpty(m0, MarkerEntries(visits, idx0, meter));
    }
    PrefixedTake(pre, inner, k);
    PointsConcat(visits, [v]);
    assert Points([v]) == [v.point];
  }

  /**
   * The frequency loop and the six voltage loops (measurement.py:309-445)
   * under the outer values `pre = [dco, kp, ki]`: one point per element
   * of the product of their axes, in loop order, stopping at a back-fill
   * error.
   */
  method MeasurePoints(folder: LogFolder, axes: seq<seq<int>>, pre: seq<int>, kp: nat, ki: nat, initDco: nat,
                       power: int, meter: Meter, idx: nat)
    returns (idx': nat, ghost visits: seq<Visit>, failed: Option<BackFillError>)
    requires |axes| == 10 && |pre| == 3
    modifies folder
    ensures Logged(old(folder.settingLog), old(folder.markerTable), folder.settingLog, folder.markerTable, visits, idx, power, meter)
    ensures idx' == idx + |visits|
    ensures forall w :: w in visits ==> w.kp == kp && w.ki == ki && w.initDco == initDco
    ensures Points(visits) <= Prefixed(pre, Product(axes[3..]))
    ensures failed.None? ==> Points(visits) == Prefixed(pre, Product(axes[3..]))
    ensures failed.Some? ==> failed.value == NoDataRows && old(folder.markerTable) == Some([])
  {
    var inner := Product(axes[3..]);
    ghost var target := Prefixed(pre, inner);
    ghost var s0, m0 := folder.settingLog, folder.markerTable;
    visits := [];
    idx' := idx;
    failed := None;
    LoggedNothing(s0, m0, idx, power, meter);
    var k := 0;
    while k < |inner|
      invariant 0 <= k <= |inner| && |visits| == k && failed.None?
      invariant Logged(s0, m0, folder.settingLog, folder.markerTable, visits, idx, power, meter)
      invariant idx' == idx + |visits|
      invariant forall w :: w in visits ==> w.kp == kp && w.ki == ki && w.initDco == initDco
      invariant Points(visits) == target[..k]
    {
      ProductWidth(axes[3..], k);
      var v := Visit(pre + inner[k], kp, ki, initDco);
      ghost var settings, marker := folder.settingLog, folder.markerTable;
      failed := MeasurePoint(folder, idx', v, power, meter(idx'));
      PointTaken(s0, m0, settings, marker, visits, idx, power, meter, pre, inner, k, v, failed.Some?);
      visits := visits + [v];
      idx' := idx' + 1;
      k := k + 1;
      if failed.Some? {
        assert target[..k] <= target;
        return;
      }
    }
    assert target[..k] == target;
  }

  // ---------------------------------------------------------------------
  // How a run ends
  // ---------------------------------------------------------------------

  /** Why a run stopped early. */
  datatype Failure =
    | SettingRejected(rejected: EncodeError)       // a swept Kp, Ki or DCO value does not fit its field
    | ReadbackFailed(addr: nat)              // the readback after writing register `addr` raised
    | BackFillFailed(raised: BackFillError)   // `append_phase_data` raised

  datatype Outcome = Done | Aborted(failure: Failure)

  /** The rejected value is one of the swept values of the field it was meant for. */
  predicate Rejected(e: EncodeError, axes: seq<seq<int>>)
    requires |axes| == 10
  {
    || (e.field == DcoField && e.value in axes[0] && !(0 <= e.value < 1024))
    || (e.field == KpField && e.value in axes[1] && !(0 <= e.value < 16))
    || (e.field == KiField && e.value in axes[2] && !(0 <= e.value < 16))
  }

  /** Every swept DCO code fits ten bits and every Kp and Ki four. */
  predicate InRange(axes: seq<seq<int>>)
    requires |axes| == 10
  {
    && (forall v :: v in axes[0] ==> 0 <= v < 1024)
    && (forall v :: v in axes[1] ==> 0 <= v < 16)
    && (forall v :: v in axes[2] ==> 0 <= v < 16)
  }

  /**
   * The failure is accounted for: an out-of-range swept value, a readback
   * that failed right after the last write, or a marker file that was
   * already there but empty when the run began (`m0`).
   */
  predicate Explains(f: Failure, axes: seq<seq<int>>, device: Device, sent: seq<seq<byte>>, m0: CsvFile)
    requires |axes| == 10
  {
    match f
    case SettingRejected(e) => Rejected(e, axes)
    case ReadbackFailed(a) => EndsWithWrite(sent) && sent[|sent| - 1][0] == a && ReadWord(device(sent), a).None?
    case BackFillFailed(e) => e == NoDataRows && m0 == Some([])
  }

  // ---------------------------------------------------------------------
  // Composing loop levels
  // ---------------------------------------------------------------------

  lemma SettingsLinesConcat(a: seq<Visit>, b: seq<Visit>, idx0: nat, idx1: nat, power: int, meter: Meter)
    requires Shaped(a) && Shaped(b) && idx1 == idx0 + |a|
    ensures Shaped(a + b)
    ensures SettingsLines(a + b, idx0, power, meter) ==
            SettingsLines(a, idx0, power, meter) + SettingsLines(b, idx1, power, meter)
  {
  }

  lemma MarkerEntriesConcat(a: seq<Visit>, b: seq<Visit>, idx0: nat, idx1: nat, meter: Meter)
    requires Shaped(a) && Shaped(b) && idx1 == idx0 + |a|
    ensures Shaped(a + b)
    ensures MarkerEntries(a + b, idx0, meter) == MarkerEntries(a, idx0, meter) + MarkerEntries(b, idx1, meter)
  {
  }

  /** Logging `a` and then `b`, numbered on from where `a` stopped, is logging `a + b`. */
  lemma LoggedConcat(s0: CsvFile, m0: CsvFile, s1: CsvFile, m1: CsvFile, s2: CsvFile, m2: CsvFile,
                     a: seq<Visit>, b: seq<Visit>, idx0: nat, idx1: nat, power: int, meter: Meter)
    requires Logged(s0, m0, s1, m1, a, idx0, power, meter)
    requires idx1 == idx0 + |a| && Logged(s1, m1, s2, m2, b, idx1, power, meter)
    ensures Logged(s0, m0, s2, m2, a + b, idx0, power, meter)
  {
    SettingsLinesConcat(a, b, idx0, idx1, power, meter);
    MarkerEntriesConcat(a, b, idx0, idx1, meter);
    AppendRowsConcat(s0, SettingsHeader, SettingsLines(a, idx0, power, meter), SettingsLines(b, idx1, power, meter));
    ReplayConcat(m0, MarkerStep, MarkerEntries(a, idx0, meter), MarkerEntries(b, idx1, meter));
  }

  /** A failure explained from a level's start is explained from the run's start. */
  lemma ExplainsLift(f: Failure, axes: seq<seq<int>>, device: Device, sent: seq<seq<byte>>,
                     m0: CsvFile, entries: seq<MarkerEntry>)
    requires |axes| == 10 && Explains(f, axes, device, sent, Replay(m0, MarkerStep, entries))
    ensures Explains(f, axes, device, sent, m0)
  {
    ReplayEmpty(m0, entries);
  }

  /** Block `j` of loop level `l`: value `j` of axis `l` after the outer values. */
  lemma BlockAt(pre: seq<int>, axes: seq<seq<int>>, l: nat, j: nat)
    requires l < |axes| && j < |axes[l]|
    ensures axes[l..] != [] && |Blocks(pre, axes[l..])| == |axes[l]|
    ensures Blocks(pre, axes[l..])[j] == Prefixed(pre + [axes[l][j]], Product(axes[l + 1..]))
  {
    assert axes[l..][0] == axes[l];
    assert axes[l..][1..] == axes[l + 1..];
  }

  /** A loop level that has run over all its values has taken all its points. */
  lemma LevelDone(pre: seq<int>, axes: seq<seq<int>>, l: nat)
    requires l < |axes|
    ensures axes[l..] != [] && |Blocks(pre, axes[l..])| == |axes[l]|
    ensures Flatten(Blocks(pre, axes[l..])[..|axes[l]|]) == Flatten(Blocks(pre, axes[l..])) == Prefixed(pre, Product(axes[l..]))
  {
    assert axes[l..][0] == axes[l];
    PrefixedProduct(pre, axes[l..]);
    assert Blocks(pre, axes[l..])[..|axes[l]|] == Blocks(pre, axes[l..]);
  }

  /** A swept Ki, Kp or DCO value that the range check refuses is out of range. */
  lemma RejectedValue(axes: seq<seq<int>>, l: nat, j: nat, f: Field, w: string)
    requires |axes| == 10 && l < 3 && j < |axes[l]| && |w| == 16
    requires f == (if l == 0 then DcoField else if l == 1 then KpField else KiField)
    requires EncodeField(w, f, axes[l][j]).Err?
    ensures Rejected(EncodeField(w, f, axes[l][j]).error, axes)
    ensures !InRange(axes)
  {
    PowValues();
    EncodeFieldSpec(w, f, axes[l][j]);
    assert axes[l][j] in axes[l];
  }

  /** The points after block `j`, whole or cut short, in terms of the level's blocks. */
  lemma BlockTaken(visits: seq<Visit>, more: seq<Visit>, blocks: seq<seq<seq<int>>>, j: nat)
    requires j < |blocks| && Points(visits) == Flatten(blocks[..j]) && Points(more) <= blocks[j]
    ensures Points(visits + more) <= Flatten(blocks)
    ensures Points(more) == blocks[j] ==> Points(visits + more) == Flatten(blocks[..j + 1])
  {
    PointsConcat(visits, more);
    StoppedPrefix(blocks, j, Points(more));
    FlattenSnoc(blocks, j);
  }

  /** A loop level stopped before block `j` has taken a prefix of its points. */
  lemma BlocksPrefix(visits: seq<Visit>, blocks: seq<seq<seq<int>>>, j: nat)
    requires j <= |blocks| && Points(visits) == Flatten(blocks[..j])
    ensures Points(visits) <= Flatten(blocks)
  {
    FlattenPrefix(blocks, j);
  }

  /**
   * One pass of a loop level joined onto the passes before it: the logs,
   * the write frames, the points taken and their faithfulness all extend.
   */
  lemma PassJoined(s0: CsvFile, m0: CsvFile, s1: CsvFile, m1: CsvFile, s2: CsvFile, m2: CsvFile,
                   visits: seq<Visit>, more: seq<Visit>, idx0: nat, idx1: nat, power: int, meter: Meter,
                   sent: seq<seq<byte>>, sentAt: seq<seq<byte>>, sent': seq<seq<byte>>, enDsm: Bit, dlfMode: Bit,
                   blocks: seq<seq<seq<int>>>, j: nat, echoes: bool)
    requires Logged(s0, m0, s1, m1, visits, idx0, power, meter)
    requires idx1 == idx0 + |visits| && Logged(s1, m1, s2, m2, more, idx1, power, meter)
    requires sent <= sentAt && WritesKeep(sentAt, |sent|, enDsm, dlfMode)
    requires sentAt <= sent' && WritesKeep(sent', |sentAt|, enDsm, dlfMode)
    requires j < |blocks| && Points(visits) == Flatten(blocks[..j]) && Points(more) <= blocks[j]
    requires echoes ==> AllFaithful(visits) && AllFaithful(more)
    ensures Logged(s0, m0, s2, m2, visits + more, idx0, power, meter)
    ensures sent <= sent' && WritesKeep(sent', |sent|, enDsm, dlfMode)
    ensures Points(visits + more) <= Flatten(blocks)
    ensures Points(more) == blocks[j] ==> Points(visits + more) == Flatten(blocks[..j + 1])
    ensures echoes ==> AllFaithful(visits + more)
  {
    LoggedConcat(s0, m0, s1, m1, s2, m2, visits, more, idx0, idx1, power, meter);
    WritesKeepTrans(sentAt, sent', |sent|, enDsm, dlfMode);
    BlockTaken(visits, more, blocks, j);
    if echoes {
      AllFaithfulConcat(visits, more);
    }
  }

  /** Points taken under the outer values `pre3 = [dco, kp, ki]` log those values when the registers echoed them. */
  lemma FaithfulBlock(more: seq<Visit>, pre3: seq<int>, inner: seq<seq<int>>, kp: nat, ki: nat, initDco: nat)
    requires Shaped(more) && |pre3| == 3 && Points(more) <= Prefixed(pre3, inner)
    requires forall w :: w in more ==> w.kp == kp && w.ki == ki && w.initDco == initDco
    requires initDco == pre3[0] && kp == pre3[1] && ki == pre3[2]
    ensures AllFaithful(more)
  {
    forall k | 0 <= k < |more|
      ensures Faithful(more[k])
    {
      assert more[k].point == Points(more)[k] == pre3 + inner[k];
    }
    AllFaithfulEach(more);
  }

  /** One more write frame that keeps the templates. */
  lemma WritesKeepSnoc(sent: seq<seq<byte>>, n: nat, frame: seq<byte>, enDsm: Bit, dlfMode: Bit)
    requires WritesKeep(sent, n, enDsm, dlfMode) && KeepsTemplates(frame, enDsm, dlfMode)
    ensures WritesKeep(sent + [frame], n, enDsm, dlfMode)
  {
  }

  /** Frames kept from `n` up to `|a|` and from there on are kept from `n`. */
  lemma WritesKeepTrans(a: seq<seq<byte>>, b: seq<seq<byte>>, n: nat, enDsm: Bit, dlfMode: Bit)
    requires WritesKeep(a, n, enDsm, dlfMode) && a <= b && WritesKeep(b, |a|, enDsm, dlfMode)
    ensures WritesKeep(b, n, enDsm, dlfMode)
  {
    assert forall i :: n <= i < |a| ==> b[i] == a[i];
  }

  /** A device that never fails has both register words in every readback. */
  lemma ReliableWord(device: Device, h: seq<seq<byte>>, addr: nat)
    requires Reliable(device) && addr < 2
    ensures ReadWord(device(h), addr).Some?
  {
    assert device(h) == Answer(device, h);
  }

  // ---------------------------------------------------------------------
  // The register loops
  // ---------------------------------------------------------------------

  /**
   * The register half of a Ki pass (measurement.py:297-308): splice Ki
   * value `j` into `binary_reg0` with the range check, write register 0
   * and read it back. `rejected` is the range check's error; `word` is
   * the word read back, `None` where the readback raised.
   */
  method ProgramKi(axes: seq<seq<int>>, j: nat, reg0: string, device: Device, sent: seq<seq<byte>>,
                   ghost enDsm: Bit, ghost dlfMode: Bit)
    returns (reg0': string, sent': seq<seq<byte>>, rejected: Option<EncodeError>, word: Option<string>)
    requires |axes| == 10 && j < |axes[2]| && Reg0Shape(reg0, enDsm, dlfMode)
    ensures Reg0Shape(reg0', enDsm, dlfMode) && FieldValue(reg0', KpField) == FieldValue(reg0, KpField)
    ensures sent <= sent' && WritesKeep(sent', |sent|, enDsm, dlfMode)
    ensures rejected.Some? ==> Rejected(rejected.value, axes) && !InRange(axes) && word.None? && sent' == sent
    ensures rejected.None? && word.None? ==> EndsWithWrite(sent') && sent'[|sent'| - 1][0] == 0
                                             && ReadWord(device(sent'), 0).None? && !Reliable(device)
    ensures word.Some? ==> rejected.None? && IsBits16(word.value)
    ensures word.Some? && Echoes(device) ==> word.value == reg0' && FieldValue(reg0', KiField) == axes[2][j]
  {
    var spliced := EncodeField(reg0, KiField, axes[2][j]);
    EncodeFieldSpec(reg0, KiField, axes[2][j]);
    reg0', sent', word := reg0, sent, None;
    assert WritesKeep(sent', |sent|, enDsm, dlfMode);
    if spliced.Err? {
      RejectedValue(axes, 2, j, KiField, reg0);
      rejected := Some(spliced.error);
    } else {
      rejected := None;
      Reg0Splice(reg0, KiField, axes[2][j], enDsm, dlfMode);
      EncodeFieldKeepsOthers(reg0, KiField, KpField, axes[2][j]);
      reg0' := spliced.value;
      sent', word := Exchange(0, reg0', sent, device);
      WritesKeepSnoc(sent, |sent|, RegisterFrame(0, reg0'), enDsm, dlfMode);
      if word.None? && Reliable(device) {
        ReliableWord(device, sent', 0);
      }
    }
  }

  /**
   * One pass of the Ki loop (measurement.py:297-445) under the outer
   * values `pre = [dco, kp]`, for Ki value `j`: program register 0, then
   * take the points of the inner loops logging the read-back Kp and Ki.
   */
  method KiPass(folder: LogFolder, axes: seq<seq<int>>, pre: seq<int>, j: nat, reg0: string, initDco: nat,
                power: int, device: Device, meter: Meter, sent: seq<seq<byte>>, idx: nat,
                ghost enDsm: Bit, ghost dlfMode: Bit)
    returns (reg0': string, sent': seq<seq<byte>>, idx': nat, ghost visits: seq<Visit>, outcome: Outcome)
    requires |axes| == 10 && |pre| == 2 && j < |axes[2]| && Reg0Shape(reg0, enDsm, dlfMode)
    requires Echoes(device) ==> initDco == pre[0] && FieldValue(reg0, KpField) == pre[1]
    modifies folder
    ensures Logged(old(folder.settingLog), old(folder.markerTable), folder.settingLog, folder.markerTable, visits, idx, power, meter)
    ensures idx' == idx + |visits|
    ensures Reg0Shape(reg0', enDsm, dlfMode) && (Echoes(device) ==> FieldValue(reg0', KpField) == pre[1])
    ensures sent <= sent' && WritesKeep(sent', |sent|, enDsm, dlfMode)
    ensures Echoes(device) ==> AllFaithful(visits)
    ensures Points(visits) <= Prefixed(pre + [axes[2][j]], Product(axes[3..]))
    ensures outcome.Done? ==> Points(visits) == Prefixed(pre + [axes[2][j]], Product(axes[3..]))
    ensures outcome.Aborted? ==> Explains(outcome.failure, axes, device, sent', old(folder.markerTable))
    ensures InRange(axes) && Reliable(device) && old(folder.markerTable) != Some([]) ==> outcome.Done?
  {
    ghost var s0, m0 := folder.settingLog, folder.markerTable;
    var rejected, word;
    reg0', sent', rejected, word := ProgramKi(axes, j, reg0, device, sent, enDsm, dlfMode);
    if word.None? {
      idx', visits := idx, [];
      LoggedNothing(s0, m0, idx, power, meter);
      assert Points(visits) == [];
      outcome := Aborted(if rejected.Some? then SettingRejected(rejected.value) else ReadbackFailed(0));
    } else {
      var kp, ki := FieldValue(word.value, KpField), FieldValue(word.value, KiField);
      var failed;
      idx', visits, failed := MeasurePoints(folder, axes, pre + [axes[2][j]], kp, ki, initDco, power, meter, idx);
      if Echoes(device) {
        FaithfulBlock(visits, pre + [axes[2][j]], Product(axes[3..]), kp, ki, initDco);
      }
      outcome := if failed.Some? then Aborted(BackFillFailed(failed.value)) else Done;
    }
  }

  /**
   * The Ki loop under the outer values `pre = [dco, kp]`: one pass per Ki
   * value, stopping at the first failure.
   */
  method SweepKi(folder: LogFolder, axes: seq<seq<int>>, pre: seq<int>, reg0: string, initDco: nat,
                 power: int, device: Device, meter: Meter, sent: seq<seq<byte>>, idx: nat,
                 ghost enDsm: Bit, ghost dlfMode: Bit)
    returns (reg0': string, sent': seq<seq<byte>>, idx': nat, ghost visits: seq<Visit>, outcome: Outcome)
    requires |axes| == 10 && |pre| == 2 && Reg0Shape(reg0, enDsm, dlfMode)
    requires Echoes(device) ==> initDco == pre[0] && FieldValue(reg0, KpField) == pre[1]
    modifies folder
    ensures Logged(old(folder.settingLog), old(folder.markerTable), folder.settingLog, folder.markerTable, visits, idx, power, meter)
    ensures idx' == idx + |visits|
    ensures Reg0Shape(reg0', enDsm, dlfMode)
    ensures sent <= sent' && WritesKeep(sent', |sent|, enDsm, dlfMode)
    ensures Echoes(device) ==> AllFaithful(visits)
    ensures Points(visits) <= Prefixed(pre, Product(axes[2..]))
    ensures outcome.Done? ==> Points(visits) == Prefixed(pre, Product(axes[2..]))
    ensures outcome.Aborted? ==> Explains(outcome.failure, axes, device, sent', old(folder.markerTable))
    ensures InRange(axes) && Reliable(device) && old(folder.markerTable) != Some([]) ==> outcome.Done?
  {
    ghost var s0, m0 := folder.settingLog, folder.markerTable;
    ghost var blocks := Blocks(pre, axes[2..]);
    LevelDone(pre, axes, 2);
    reg0', sent', idx', visits, outcome := reg0, sent, idx, [], Done;
    LoggedNothing(s0, m0, idx, power, meter);
    for j := 0 to |axes[2]|
      invariant outcome == Done
      invariant Logged(s0, m0, folder.settingLog, folder.markerTable, visits, idx, power, meter)
      invariant idx' == idx + |visits|
      invariant Reg0Shape(reg0', enDsm, dlfMode) && (Echoes(device) ==> FieldValue(reg0', KpField) == pre[1])
      invariant sent <= sent' && WritesKeep(sent', |sent|, enDsm, dlfMode)
      invariant Echoes(device) ==> AllFaithful(visits)
      invariant Points(visits) == Flatten(blocks[..j])
    {
      ghost var s1, m1, at, sentAt := folder.settingLog, folder.markerTable, idx', sent';
      ghost var more;
      var result;
      reg0', sent', idx', more, result := KiPass(folder, axes, pre, j, reg0', initDco, power, device, meter, sent', idx', enDsm, dlfMode);
      BlockAt(pre, axes, 2, j);
      PassJoined(s0, m0, s1, m1, folder.settingLog, folder.markerTable, visits, more, idx, at, power, meter,
                 sent, sentAt, sent', enDsm, dlfMode, blocks, j, Echoes(device));
      if result.Aborted? {
        ExplainsLift(result.failure, axes, device, sent', m0, MarkerEntries(visits, idx, meter));
        ReplayEmpty(m0, MarkerEntries(visits, idx, meter));
        visits := visits + more;
        outcome := result;
        return;
      }
      visits := visits + more;
    }
  }

  /**
   * One pass of the Kp loop (measurement.py:294-296) under the DCO value
   * `pre = [dco]`, for Kp value `j`: splice it into `binary_reg0` with the
   * range check (no write yet), then run the Ki loop.
   */
  method KpPass(folder: LogFolder, axes: seq<seq<int>>, pre: seq<int>, j: nat, reg0: string, initDco: nat,
                power: int, device: Device, meter: Meter, sent: seq<seq<byte>>, idx: nat,
                ghost enDsm: Bit, ghost dlfMode: Bit)
    returns (reg0': string, sent': seq<seq<byte>>, idx': nat, ghost visits: seq<Visit>, outcome: Outcome)
    requires |axes| == 10 && |pre| == 1 && j < |axes[1]| && Reg0Shape(reg0, enDsm, dlfMode)
    requires Echoes(device) ==> initDco == pre[0]
    modifies folder
    ensures Logged(old(folder.settingLog), old(folder.markerTable), folder.settingLog, folder.markerTable, visits, idx, power, meter)
    ensures idx' == idx + |visits|
    ensures Reg0Shape(reg0', enDsm, dlfMode)
    ensures sent <= sent' && WritesKeep(sent', |sent|, enDsm, dlfMode)
    ensures Echoes(device) ==> AllFaithful(visits)
    ensures Points(visits) <= Prefixed(pre + [axes[1][j]], Product(axes[2..]))
    ensures outcome.Done? ==> Points(visits) == Prefixed(pre + [axes[1][j]], Product(axes[2..]))
    ensures outcome.Aborted? ==> Explains(outcome.failure, axes, device, sent', old(folder.markerTable))
    ensures InRange(axes) && Reliable(device) && old(folder.markerTable) != Some([]) ==> outcome.Done?
  {
    var spliced := EncodeField(reg0, KpField, axes[1][j]);
    EncodeFieldSpec(reg0, KpField, axes[1][j]);
    if spliced.Err? {
      RejectedValue(axes, 1, j, KpField, reg0);
      reg0', sent', idx', visits := reg0, sent, idx, [];
      LoggedNothing(folder.settingLog, folder.markerTable, idx, power, meter);
      assert Points(visits) == [];
      outcome := Aborted(SettingRejected(spliced.error));
    } else {
      Reg0Splice(reg0, KpField, axes[1][j], enDsm, dlfMode);
      reg0', sent', idx', visits, outcome := SweepKi(folder, axes, pre + [axes[1][j]], spliced.value, initDco, power, device, meter, sent, idx, enDsm, dlfMode);
    }
  }

  /** The Kp loop (measurement.py:294-445) under the DCO value `pre = [dco]`. */
  method SweepKp(folder: LogFolder, axes: seq<seq<int>>, pre: seq<int>, reg0: string, initDco: nat,
                 power: int, device: Device, meter: Meter, sent: seq<seq<byte>>, idx: nat,
                 ghost enDsm: Bit, ghost dlfMode: Bit)
    returns (reg0': string, sent': seq<seq<byte>>, idx': nat, ghost visits: seq<Visit>, outcome: Outcome)
    requires |axes| == 10 && |pre| == 1 && Reg0Shape(reg0, enDsm, dlfMode)
    requires Echoes(device) ==> initDco == pre[0]
    modifies folder
    ensures Logged(old(folder.settingLog), old(folder.markerTable), folder.settingLog, folder.markerTable, visits, idx, power, meter)
    ensures idx' == idx + |visits|
    ensures Reg0Shape(reg0', enDsm, dlfMode)
    ensures sent <= sent' && WritesKeep(sent', |sent|, enDsm, dlfMode)
    ensures Echoes(device) ==> AllFaithful(visits)
    ensures Points(visits) <= Prefixed(pre, Product(axes[1..]))
    ensures outcome.Done? ==> Points(visits) == Prefixed(pre, Product(axes[1..]))
    ensures outcome.Aborted? ==> Explains(outcome.failure, axes, device, sent', old(folder.markerTable))
    ensures InRange(axes) && Reliable(device) && old(folder.markerTable) != Some([]) ==> outcome.Done?
  {
    ghost var s0, m0 := folder.settingLog, folder.markerTable;
    ghost var blocks := Blocks(pre, axes[1..]);
    LevelDone(pre, axes, 1);
    reg0', sent', idx', visits, outcome := reg0, sent, idx, [], Done;
    LoggedNothing(s0, m0, idx, power, meter);
    for j := 0 to |axes[1]|
      invariant outcome == Done
      invariant Logged(s0, m0, folder.settingLog, folder.markerTable, visits, idx, power, meter)
      invariant idx' == idx + |visits|
      invariant Reg0Shape(reg0', enDsm, dlfMode)
      invariant sent <= sent' && WritesKeep(sent', |sent|, enDsm, dlfMode)
      invariant Echoes(device) ==> AllFaithful(visits)
      invariant Points(visits) == Flatten(blocks[..j])
    {
      ghost var s1, m1, at, sentAt := folder.settingLog, folder.markerTable, idx', sent';
      ghost var more;
      var result;
      reg0', sent', idx', more, result := KpPass(folder, axes, pre, j, reg0', initDco, power, device, meter, sent', idx', enDsm, dlfMode);
      BlockAt(pre, axes, 1, j);
      PassJoined(s0, m0, s1, m1, folder.settingLog, folder.markerTable, visits, more, idx, at, power, meter,
                 sent, sentAt, sent', enDsm, dlfMode, blocks, j, Echoes(device));
      if result.Aborted? {
        ExplainsLift(result.failure, axes, device, sent', m0, MarkerEntries(visits, idx, meter));
        ReplayEmpty(m0, MarkerEntries(visits, idx, meter));
        visits := visits + more;
        outcome := result;
        return;
      }
      visits := visits + more;
    }
  }

  /**
   * The register half of a DCO pass (measurement.py:281-293): splice DCO
   * value `j` into `binary_reg1` with the range check, write register 1
   * and read it back. `rejected` is the range check's error; `word` is
   * the word read back, `None` where the readback raised.
   */
  method ProgramDco(axes: seq<seq<int>>, j: nat, reg1: string, device: Device, sent: seq<seq<byte>>,
                    ghost enDsm: Bit, ghost dlfMode: Bit)
    returns (reg1': string, sent': seq<seq<byte>>, rejected: Option<EncodeError>, word: Option<string>)
    requires |axes| == 10 && j < |axes[0]| && Reg1Shape(reg1)
    ensures Reg1Shape(reg1')
    ensures sent <= sent' && WritesKeep(sent', |sent|, enDsm, dlfMode)
    ensures rejected.Some? ==> Rejected(rejected.value, axes) && !InRange(axes) && word.None? && sent' == sent
    ensures rejected.None? && word.None? ==> EndsWithWrite(sent') && sent'[|sent'| - 1][0] == 1
                                             && ReadWord(device(sent'), 1).None? && !Reliable(device)
    ensures word.Some? ==> rejected.None? && IsBits16(word.value)
    ensures word.Some? && Echoes(device) ==> Reg1Shape(word.value) && FieldValue(word.value, DcoField) == axes[0][j]
  {
    var spliced := EncodeField(reg1, DcoField, axes[0][j]);
    EncodeFieldSpec(reg1, DcoField, axes[0][j]);
    reg1', sent', word := reg1, sent, None;
    assert WritesKeep(sent', |sent|, enDsm, dlfMode);
    if spliced.Err? {
      RejectedValue(axes, 0, j, DcoField, reg1);
      rejected := Some(spliced.error);
    } else {
      rejected := None;
      Reg1Splice(reg1, axes[0][j]);
      reg1' := spliced.value;
      sent', word := Exchange(1, reg1', sent, device);
      WritesKeepSnoc(sent, |sent|, RegisterFrame(1, reg1'), enDsm, dlfMode);
      if word.None? && Reliable(device) {
        ReliableWord(device, sent', 1);
      }
    }
  }

  /**
   * One pass of the DCO loop (measurement.py:281-445) for DCO value `j`:
   * program register 1, take `int(reg1, 2)` of the word read back as the
   * logged DCO, then run the Kp loop.
   */
  method DcoPass(folder: LogFolder, axes: seq<seq<int>>, j: nat, reg0: string, reg1: string,
                 power: int, device: Device, meter: Meter, sent: seq<seq<byte>>, idx: nat,
                 ghost enDsm: Bit, ghost dlfMode: Bit)
    returns (reg0': string, reg1': string, sent': seq<seq<byte>>, idx': nat, ghost visits: seq<Visit>, outcome: Outcome)
    requires |axes| == 10 && j < |axes[0]| && Reg0Shape(reg0, enDsm, dlfMode) && Reg1Shape(reg1)
    modifies folder
    ensures Logged(old(folder.settingLog), old(folder.markerTable), folder.settingLog, folder.markerTable, visits, idx, power, meter)
    ensures idx' == idx + |visits|
    ensures Reg0Shape(reg0', enDsm, dlfMode) && Reg1Shape(reg1')
    ensures sent <= sent' && WritesKeep(sent', |sent|, enDsm, dlfMode)
    ensures Echoes(device) ==> AllFaithful(visits)
    ensures Points(visits) <= Prefixed([axes[0][j]], Product(axes[1..]))
    ensures outcome.Done? ==> Points(visits) == Prefixed([axes[0][j]], Product(axes[1..]))
    ensures outcome.Aborted? ==> Explains(outcome.failure, axes, device, sent', old(folder.markerTable))
    ensures InRange(axes) && Reliable(device) && old(folder.markerTable) != Some([]) ==> outcome.Done?
  {
    var rejected, word;
    reg1', sent', rejected, word := ProgramDco(axes, j, reg1, device, sent, enDsm, dlfMode);
    if word.None? {
      reg0', idx', visits := reg0, idx, [];
      LoggedNothing(folder.settingLog, folder.markerTable, idx, power, meter);
      assert Points(visits) == [];
      outcome := Aborted(if rejected.Some? then SettingRejected(rejected.value) else ReadbackFailed(1));
    } else {
      Bits16AreDigits(word.value);
      var initDco := ValueOf(word.value, 2);
      if Echoes(device) {
        Reg1WordValue(word.value);
      }
      reg0', sent', idx', visits, outcome := SweepKp(folder, axes, [axes[0][j]], reg0, initDco, power, device, meter, sent', idx, enDsm, dlfMode);
    }
  }

  /** The DCO loop (measurement.py:281-445): the whole sweep from its first point. */
  method SweepDco(folder: LogFolder, axes: seq<seq<int>>, reg0: string, reg1: string,
                  power: int, device: Device, meter: Meter, sent: seq<seq<byte>>, idx: nat,
                  ghost enDsm: Bit, ghost dlfMode: Bit)
    returns (sent': seq<seq<byte>>, idx': nat, ghost visits: seq<Visit>, outcome: Outcome)
    requires |axes| == 10 && Reg0Shape(reg0, enDsm, dlfMode) && Reg1Shape(reg1)
    modifies folder
    ensures Logged(old(folder.settingLog), old(folder.markerTable), folder.settingLog, folder.markerTable, visits, idx, power, meter)
    ensures idx' == idx + |visits|
    ensures sent <= sent' && WritesKeep(sent', |sent|, enDsm, dlfMode)
    ensures Echoes(device) ==> AllFaithful(visits)
    ensures Points(visits) <= Product(axes)
    ensures outcome.Done? ==> Points(visits) == Product(axes)
    ensures outcome.Aborted? ==> Explains(outcome.failure, axes, device, sent', old(folder.markerTable))
    ensures InRange(axes) && Reliable(device) && old(folder.markerTable) != Some([]) ==> outcome.Done?
  {
    ghost var s0, m0 := folder.settingLog, folder.markerTable;
    ghost var blocks := Blocks([], axes[0..]);
    LevelDone([], axes, 0);
    assert axes[0..] == axes;
    PrefixedNothing(Product(axes));
    var reg0', reg1' := reg0, reg1;
    sent', idx', visits, outcome := sent, idx, [], Done;
    LoggedNothing(s0, m0, idx, power, meter);
    for j := 0 to |axes[0]|
      invariant outcome == Done
      invariant Logged(s0, m0, folder.settingLog, folder.markerTable, visits, idx, power, meter)
      invariant idx' == idx + |visits|
      invariant Reg0Shape(reg0', enDsm, dlfMode) && Reg1Shape(reg1')
      invariant sent <= sent' && WritesKeep(sent', |sent|, enDsm, dlfMode)
      invariant Echoes(device) ==> AllFaithful(visits)
      invariant Points(visits) == Flatten(blocks[..j])
    {
      ghost var s1, m1, at, sentAt := folder.settingLog, folder.markerTable, idx', sent';
      ghost var more;
      var result;
      reg0', reg1', sent', idx', more, result := DcoPass(folder, axes, j, reg0', reg1', power, device, meter, sent', idx', enDsm, dlfMode);
      BlockAt([], axes, 0, j);
      assert [] + [axes[0][j]] == [axes[0][j]];
      PassJoined(s0, m0, s1, m1, folder.settingLog, folder.markerTable, visits, more, idx, at, power, meter,
                 sent, sentAt, sent', enDsm, dlfMode, blocks, j, Echoes(device));
      if result.Aborted? {
        ExplainsLift(result.failure, axes, device, sent', m0, MarkerEntries(visits, idx, meter));
        ReplayEmpty(m0, MarkerEntries(visits, idx, meter));
        visits := visits + more;
        outcome := result;
        return;
      }
      visits := visits + more;
    }
  }

  // ---------------------------------------------------------------------
  // The run
  // ---------------------------------------------------------------------

  /**
   * `measurement` (measurement.py:96-446): build the ten axes in loop
   * order (DCO, Kp, Ki, frequency, then the six supply voltages), start
   * from the register templates with the chosen `en_dsm` and `dlf_mode`
   * bits, in a new log folder, with `total_idx = 1`, and run the sweep.
   * `sent` is every frame written to the register bank.
   */
  method Measurement(settings: seq<Axis>, enDsm: Bit, dlfMode: Bit, power: int, device: Device, meter: Meter)
    returns (folder: LogFolder, sent: seq<seq<byte>>, totalIdx: nat, axes: seq<seq<int>>, ghost visits: seq<Visit>,
             outcome: Outcome)
    requires |settings| == 10 && forall i :: 0 <= i < 10 ==> Terminates(settings[i])
    ensures |axes| == 10 && forall i :: 0 <= i < 10 ==> axes[i] == AxisValues(settings[i])
    ensures Logged(None, None, folder.settingLog, folder.markerTable, visits, 1, power, meter)
    ensures totalIdx == 1 + |visits|
    ensures WritesKeep(sent, 0, enDsm, dlfMode)
    ensures Echoes(device) ==> AllFaithful(visits)
    ensures Points(visits) <= Product(axes)
    ensures outcome.Done? ==> Points(visits) == Product(axes) && |visits| == Count(axes)
    ensures outcome.Aborted? ==> Explains(outcome.failure, axes, device, sent, None) && !outcome.failure.BackFillFailed?
    ensures InRange(axes) && Reliable(device) ==> outcome.Done?
  {
    axes := [];
    for i := 0 to 10
      invariant |axes| == i && forall i' :: 0 <= i' < i ==> axes[i'] == AxisValues(settings[i'])
    {
      var values := BuildAxis(settings[i]);
      axes := axes + [values];
    }
    folder := new LogFolder();
    var reg0 := Reg0Start(enDsm, dlfMode);
    Reg0StartShape(enDsm, dlfMode);
    Reg1TemplateShape();
    totalIdx := 1;
    sent, totalIdx, visits, outcome := SweepDco(folder, axes, reg0, Reg1Template, power, device, meter, [], totalIdx, enDsm, dlfMode);
    if outcome.Done? {
      ProductLength(axes);
      assert |Points(visits)| == |visits|;
    }
  }

  /**
   * What a run leaves in its folder: no files when it took no point;
   * otherwise `settings.csv` is its header and one row per point, and
   * `marker_table.csv` its header and one completed row per point, in the
   * order the points were taken.
   */
  lemma RunLogs(s: CsvFile, m: CsvFile, visits: seq<Visit>, power: int, meter: Meter)
    requires Logged(None, None, s, m, visits, 1, power, meter)
    ensures visits == [] <==> s.None?
    ensures visits == [] <==> m.None?
    ensures visits != [] ==> s == Some([SettingsHeader] + SettingsLines(visits, 1, power, meter))
    ensures visits != [] ==> m == Some([MarkerHeader] + RowsOf(CompletedRow, MarkerEntries(visits, 1, meter)))
  {
    SettingsLogOfRun(visits, power, meter);
    MarkerLogOfRun(visits, meter);
  }

  /** The settings file a run starting without one leaves. */
  lemma SettingsLogOfRun(visits: seq<Visit>, power: int, meter: Meter)
    requires Shaped(visits)
    ensures var s := AppendRows(None, SettingsHeader, SettingsLines(visits, 1, power, meter));
      && (visits == [] <==> s.None?)
      && (visits != [] ==> s == Some([SettingsHeader] + SettingsLines(visits, 1, power, meter)))
  {
    HeaderThenAppend(None, SettingsHeader, SettingsLines(visits, 1, power, meter));
  }

  /** The marker table a run starting without one leaves. */
  lemma MarkerLogOfRun(visits: seq<Visit>, meter: Meter)
    requires Shaped(visits)
    ensures var m := Replay(None, MarkerStep, MarkerEntries(visits, 1, meter));
      && (visits == [] <==> m.None?)
      && (visits != [] ==> m == Some([MarkerHeader] + RowsOf(CompletedRow, MarkerEntries(visits, 1, meter))))
  {
    var entries := MarkerEntries(visits, 1, meter);
    forall k | 0 <= k < |entries|
      ensures |entries[k].row| == 10
    {
      assert entries[k] == MarkerLine(1 + k, visits[k], meter(1 + k));
    }
    FreshMarkerLog(entries);
  }

  /**
   * Row `k + 1` of each file is the point taken `k`-th, under index
   * `total_idx = k + 1`; when the logged Kp, Ki and DCO are the loop's
   * own, the settings row holds the point's loop values under the
   * columns that name them.
   */
  lemma RunRow(s: CsvFile, m: CsvFile, visits: seq<Visit>, power: int, meter: Meter, k: nat)
    requires Logged(None, None, s, m, visits, 1, power, meter) && k < |visits|
    ensures s.Some? && |s.value| == |visits| + 1 && s.value[0] == SettingsHeader
    ensures s.value[k + 1] == SettingsLine(k + 1, visits[k], power, meter(k + 1))
    ensures s.value[k + 1][0] == IntToString(k + 1)
    ensures Faithful(visits[k]) ==>
      && s.value[k + 1][1] == IntToString(visits[k].point[1])
      && s.value[k + 1][2] == IntToString(visits[k].point[2])
      && s.value[k + 1][3] == IntToString(visits[k].point[0])
      && s.value[k + 1][4] == IntToString(visits[k].point[3])
      && forall j :: 0 <= j < 6 ==> s.value[k + 1][6..12][j] == IntToString(visits[k].point[4..10][j])
    ensures m.Some? && |m.value| == |visits| + 1 && m.value[0] == MarkerHeader
    ensures m.value[k + 1] == CompletedRow(MarkerLine(k + 1, visits[k], meter(k + 1)))
    ensures m.value[k + 1][0] == IntToString(k + 1)
  {
    RunLogs(s, m, visits, power, meter);
    assert s.value[k + 1] == SettingsLines(visits, 1, power, meter)[k];
    SettingsLineCells(k + 1, visits[k], power, meter(k + 1));
    assert m.value[k + 1] == RowsOf(CompletedRow, MarkerEntries(visits, 1, meter))[k];
  }

  /**
   * The settings row of a point: its index first, and for a point that
   * logs its own Kp, Ki and DCO, the loop values under their columns.
   */
  lemma SettingsLineCells(idx: int, v: Visit, power: int, r: Reading)
    requires |v.point| == 10
    ensures SettingsLine(idx, v, power, r)[0] == IntToString(idx)
    ensures Faithful(v) ==>
      var row := SettingsLine(idx, v, power, r);
      && row[1] == IntToString(v.point[1])
      && row[2] == IntToString(v.point[2])
      && row[3] == IntToString(v.point[0])
      && row[4] == IntToString(v.point[3])
      && forall j :: 0 <= j < 6 ==> row[6..12][j] == IntToString(v.point[4..10][j])
  {
    var volts := SettingsVoltages(v.point);
    SettingsRowColumns(idx, v.kp, v.ki, v.initDco, v.point[3], power, volts, r.temp, r.humid);
  }
}
