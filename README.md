# PLL register codec, sweep and logs — a Dafny model

This project models the logic core of the Capstone_Pinch-Off measurement
program. The program characterises a PLL test chip. Its parts are:

- **Register tab** (`main.py`): writes registers 0, 1 and 15 of the chip over SPI and reads them back.
- **Sweep** (`measurement.py`): steps through DCO codes, loop-filter gains (Kp, Ki), RF frequencies and six supply voltages.
- **Logs**: one settings row and one marker row per point, written to two CSV files. Phase-noise columns are filled into the last marker row afterwards.

The modules, one concept each:

| module | file | what it holds |
|---|---|---|
| `Wrappers` | wrappers.dfy | `Option` and `Result` |
| `Util` | util.dfy | `int(s, base)` and `format(n, '0wb')` / `f"{n:04X}"` over digit strings, `bin16_to_hex4`, `hex4_to_bin16`, `dec_to_bin4`, `dec_to_bin_n`, `check_ip`, `change_freq_unit` |
| `Spi` | spi.dfy | the byte arithmetic of `keti_spi_write`, `read_register` and `write_register`; the write frame is filled into an `array` as the source fills its `array('B')` |
| `Registers` | registers.dfy | the `reg_settings` templates; bit settings at string position `15 - bit`; the Ki (positions 0-3), Kp (4-7) and DCO (6-15) fields; readback words |
| `Panel` | panel.dfy | class `RegisterPanel`: the Kp/Ki/DCO entries, the bit buttons, the status line and the readback table, with `write_all_registers`, `write_manual_register` and `read_registers` as methods |
| `Sweep` | sweep.dfy | the axis builders (`while val <= stop`) and the order in which the nested loops visit their points |
| `LogStore` | logstore.dfy | class `LogFolder` holding `setting_log.csv` and `marker_table.csv` as optional row sequences; `save_settings_csv`, `append_marker_data`, `append_phase_data` |
| `Sequencer` | sequencer.dfy | `measurement` as methods, one per loop level, with `total_idx` as a counter |

What the model treats as parameters rather than computing:

- **The SPI adapter.** It is a function from the frames written so far to the 40 bytes (or the failure) that `read_register(2, 20)` returns. `Sequencer.Echoes` names an adapter that reads back what was last written. `Sequencer.Reliable` names one whose reads never fail.
- **The instruments.** The sensor, the supplies' `status_voltage` readings, the analyser's marker and the spot-noise values are a function from `total_idx` to a `Reading`.
- **Write rejection on the panel.** Which register writes the adapter rejects is a set of addresses.
- **The timestamped log folder.** It is a fresh `LogFolder` with neither file present.

Frequencies and voltages are integers, standing in for fixed-point units. Instrument readings are kept as the text cells they become in the CSV.

## Model

| member | source | states |
|---|---|---|
| Util.FormatLength | util.py:38-39 | `format(n, '0wb')` pads to width `w` when `n < b^w` and is longer than `w` otherwise; it never truncates |
| Util.FormatValue | util.py:38-39 | the formatted text is all digits of the base, upper case, and parses back to `n` |
| Util.FormatOfValue | util.py:29-33 | formatting the value of a digit string with no superfluous leading zero gives back its upper-case text |
| Util.Bin16ToHex4Spec | util.py:29-30 | on any sixteen-character 0/1 string, `bin16_to_hex4` gives exactly four upper-case hex digits of the same value |
| Util.Hex4ToBin16Spec | util.py:32-33 | on a hex string whose value is below 65536, `hex4_to_bin16` gives sixteen 0/1 characters of the same value |
| Util.BinHexRoundTrip | util.py:29-33 | `hex4_to_bin16(bin16_to_hex4(b)) == b` for every sixteen-character 0/1 string |
| Util.HexBinRoundTrip | util.py:29-33 | `bin16_to_hex4(hex4_to_bin16(h))` is the upper case of `h` for every four-digit hex string |
| Util.PyIntDigits | util.py:30 | `int(t, b)` of a non-empty digit string is its value |
| Util.PyIntSpaces | util.py:30 | white space before and after the text does not change what `int` returns |
| Util.PyIntSigned | util.py:30 | a leading `-` negates the value and a leading `+` keeps it |
| Util.PyIntPrefixed | util.py:33 | in bases 2 and 16 a `0b`/`0x` prefix, alone or followed by one underscore, does not change the value |
| Util.PyIntUnderscore | util.py:33 | one underscore between digit groups is ignored |
| Util.PyIntStrayUnderscore | util.py:33 | a leading, trailing or doubled underscore makes `int` raise |
| Util.InnerMinusRaises | util.py:30 | a minus sign anywhere after the first character, between digits, makes `int` raise |
| Util.FormatIntParses | util.py:38-39 | `int(format(n, ...), b) == n` for every integer, negative ones included |
| Util.DecToBinNSpec | util.py:35-39 | `dec_to_bin_n(n, w)` parses back to `n` for every integer; for `n >= 0` it is `w` digits when `n < 2^w` and longer otherwise; a negative `n` starts with `-` and fills `w` characters when `-n < 2^(w-1)`; `dec_to_bin4(n) == dec_to_bin_n(n, 4)` |
| Util.OctetPatternIsCanonical | util.py:8 | the octet alternative of the pattern matches exactly the decimal texts of 0..255 without leading zeros |
| Util.CheckIpSound | util.py:7-9 | an accepted address is four such octets joined by dots, optionally followed by one newline (Python's `$`) |
| Util.CheckIpComplete | util.py:7-9 | every dotted quad of octets 0..255, with or without a final newline, is accepted |
| Util.CheckIpIsDottedQuad | util.py:7-9 | `check_ip(s)` holds if and only if `s` is a dotted quad of canonical octets, optionally newline-terminated |
| Util.ChangeFreqUnit | util.py:17-27 | the four units Hz, kHz, MHz, GHz scale by 1000 to the power of their rank; every other unit is an `UnknownUnit` error carrying the unit |
| Util.ChangeFreqUnitStep | util.py:17-27 | a value in one unit equals 1000 times that value in the next smaller unit |
| Spi.SplitWordSpec | SPI.py:54-55 | for a 16-bit word, `w >> 8` is below 256 and `hi * 256 + lo == w` |
| Spi.WriteFrameSpec | SPI.py:54-66 | the frame has three bytes: the address (masked to 8 bits), then the high and low byte of the word modulo 65536 |
| Spi.KetiSpiWrite | SPI.py:50-71 | the freshly allocated `data_out` array holds exactly that frame |
| Spi.ReadCommandSpec | SPI.py:30-33 | for an address below 128 the command byte has its top bit set and the address below it |
| Spi.ReadRegisterBuffers | SPI.py:30-34 | the command buffer is the one command byte; the receive buffer is `2 * read_data` zero bytes |
| Spi.WriteRegister | SPI.py:74-84 | `write_register` sends a frame exactly when `int(hex_str, 16)` accepts the text (white space, sign, `0x` and single underscores included); the frame is the address byte, then the high and low byte of that value modulo 65536 |
| Spi.WriteRegisterLenient | SPI.py:74-84 | `" 12AB\n"`, `"0x12AB"` and `"12_AB"` are all sent as `[0, 0x12, 0xAB]`; `"-1719"` is sent as `[0, 0xE8, 0xE7]` |
| Spi.WriteRegisterFrameSpec | SPI.py:74-84 | a four-digit hex text is sent as three bytes whose word is the text's value |
| Spi.WordHexSpec | main.py:264 | `f"{hi:02X}{lo:02X}"` is four upper-case hex digits worth `hi * 256 + lo` |
| Spi.ReadbackBits | measurement.py:290 | `hex4_to_bin16` of a readback word is the sixteen-bit binary text of `hi * 256 + lo` |
| Registers.ApplyBitsSpec | main.py:225-227 | each configured bit is written at string position `15 - bit`; every other position keeps the template character |
| Registers.ApplyBitsBits | main.py:225-227 | applied to a 0/1 template the result is 0/1 and each configured bit reads back as set |
| Registers.ApplyBitSettings | main.py:225-227 | the loop over the bit settings computes exactly that word |
| Registers.EncodeFieldSpec | measurement.py:282-283 | splicing a value succeeds exactly when it fits the field; then the field holds the value and every other position is unchanged; otherwise the error names the field and the value |
| Registers.EncodeFieldKeepsOthers | main.py:229-233 | splicing Kp leaves Ki's value unchanged and vice versa (disjoint fields) |
| Registers.TemplatesAreBits | main.py:23-32 | the templates of registers 0, 1 and 15 are sixteen 0/1 characters |
| Registers.DefaultBitsOutsideFields | main.py:23-32 | the bit settings of `reg_settings` lie within 0..15 and clear of the Kp, Ki and DCO fields of their register |
| Registers.EncodeRegisterDecodes | main.py:223-241 | a register word is built exactly when Kp, Ki (register 0) or DCO (register 1) fit; it then holds those values, every configured bit, and the template everywhere else |
| Registers.ReadBits | measurement.py:290 | the decoded readback is sixteen 0/1 characters worth `hi * 256 + lo` |
| Registers.ReadBitsDecodes | measurement.py:290 | it is `hex4_to_bin16` of the readback's hex word |
| Registers.RegisterFrameSent | measurement.py:285-288 | `write_register(addr, bin16_to_hex4(w))` sends the register frame of `w` |
| Registers.RegisterFrameSpec | measurement.py:285-288 | that frame has three bytes: the address, then two bytes that decode back to `w` |
| Registers.Ki16ProgramsKiZero | measurement.py:295-303 | as written (Kp spliced first), Kp 7 and Ki 16 build a 17-character word whose hex is "10719"; the frame sent is `[0, 0x07, 0x19]`, which the chip reads as Ki 0 and Kp 7 |
| Registers.Ki16ProgramsKp15 | main.py:229-243 | as written (Ki spliced first), Kp 7 and Ki 16 give hex "10F19"; the frame sent is `[0, 0x0F, 0x19]`, which the chip reads as Ki 0 and Kp 15 |
| Registers.Kp16ShiftsLaterWords | measurement.py:294-303 | as written, after Kp 16 the register 0 list stays 17 characters long; under the next DCO value Kp 15 with Ki 7 gives hex "FE19" and the frame `[0, 0xFE, 0x19]`, which the chip reads as Ki 15 and Kp 14 |
| Registers.KiMinusOneProgramsKi14 | main.py:229-243 | as written, Ki -1 (in either splice order) gives the 16-character text `-001011100011001`, hex "-1719" and the frame `[0, 0xE8, 0xE7]`, which the chip reads as Ki 14 and Kp 8 |
| Registers.KpNegativeRaises | main.py:229-241 | every negative Kp, spliced into any sixteen-bit word (the template with any bit settings and any Ki that fits), puts its `-` at position 4, inside the digits, so `bin16_to_hex4` raises |
| Registers.DcoNegativeRaises | main.py:234-241 | every negative DCO code, spliced into any sixteen-bit register 1 word (any bit settings), puts its `-` at position 6, inside the digits, so `bin16_to_hex4` raises |
| Panel.ParseIntString | main.py:250 | `int(s)` of the decimal text of any integer, negative ones included, is that integer |
| Panel.ManualWriteSpec | main.py:248-259 | a manual write succeeds if and only if `int()` accepts the address text with a value in 0..255 and the upper-cased value is exactly four hex digits; it then sends that address and word; an unparsable address is reported as such |
| Panel.ManualWriteLenient | main.py:248-258 | the address texts `"12 "` and `"1_2"` are accepted as 12, so value `abcd` is sent as `[12, 0xAB, 0xCD]` |
| Panel.AddressLabelSpec | main.py:265 | the label of word `i` is the shortest upper-case hex of `i` |
| Panel.ReadbackRowsSpec | main.py:264-268 | table row `i` pairs the label of `i` with bytes `2i` and `2i+1` as four upper-case hex digits |
| Panel.DecodeReadback | main.py:264-273 | 40 bytes become twenty hex words, the table rows, and the twenty binary words |
| Panel.ReadbackBins | main.py:273 | each of the twenty binary words is sixteen 0/1 characters |
| Panel.ReadBitSettings | main.py:274-275 | reading the bit buttons back sets exactly the buttons the register has |
| Panel.ReadbackSettingsShape | main.py:270-275 | after loading a readback, registers 0, 1 and 15 keep exactly their buttons, still clear of the fields |
| Panel.LoadReadback | main.py:270-284 | the entries take Ki and Kp from word 0 and the DCO from word 1 |
| Panel.ReadbackOfWrittenWord | main.py:222-284 | reading back a word that `write_all_registers` sent recovers Kp, Ki, the DCO and every bit setting |
| Panel.SendRegister | main.py:241-243 | a built word is sent as its register frame |
| Panel.RegisterTexts | main.py:223-236 | three register texts are built, and each that succeeds is sixteen 0/1 characters |
| Panel.BuildRegister | main.py:225-236 | the per-register loop computes the encoded word or the out-of-range error |
| Panel.WriteRegisters | main.py:222-246 | registers 0, 1 and 15 are sent in that order up to the first that cannot be built; the status is the encode error, else the outcome of the last write |
| Panel.RegisterPanel.constructor | main.py:23-56 | Kp 7, Ki 7, DCO 135, the `reg_settings` bit defaults, an idle status and an empty table |
| Panel.RegisterPanel.WriteAllRegisters | main.py:222-246 | sends the frames of the current entries, as above, and changes only the status |
| Panel.RegisterPanel.WriteManualRegister | main.py:248-259 | sends the validated frame or shows the rejection; the entries and the table are unchanged |
| Panel.RegisterPanel.ReadRegisters | main.py:261-288 | a failed or short read leaves only the error row and the entries as they were; otherwise the table shows the twenty words and Ki, Kp, DCO and the bits come from words 0 and 1 |
| LogStore.HeaderThenAppend | measurement.py:13-18 | an existing file gains just the new rows; a missing file gets the header first |
| LogStore.AppendRowsConcat | measurement.py:13-18 | appending in two batches is the same as appending once; after n calls the file is header plus n rows |
| LogStore.SettingsRowColumns | measurement.py:17-18 | the settings row lines up with the header: index, kp, ki, init_dco, freq and the six voltages in their columns |
| LogStore.IndexOf | measurement.py:50 | `header.index(name)` is the first position holding `name` |
| LogStore.PutColumnsFrame | measurement.py:46-86 | the header only grows, only by phase columns; the last row grows as much and changes only in phase columns |
| LogStore.PutColumnsStores | measurement.py:46-86 | afterwards each phase column is in the header and the last row holds its value there |
| LogStore.PutColumnsStable | measurement.py:46-86 | once the values are stored, filling them in again changes nothing |
| LogStore.PutColumnsLast | measurement.py:43-86 | with the marker header, the padded ten-cell row ends with the phase values |
| LogStore.BackFillFrame | measurement.py:32-94 | back-fill fails exactly on a missing file, an empty file or a header without data rows; otherwise only the header and the last row change |
| LogStore.BackFillStores | measurement.py:43-88 | after back-fill, the header and the last row have the same length and every phase value is in its column |
| LogStore.BackFillIdempotent | measurement.py:32-94 | back-filling the same values twice equals back-filling once |
| LogStore.BackFillLast | measurement.py:32-94 | on the marker table, back-fill appends the six phase values to the last row and changes nothing else |
| LogStore.MarkerHeaderPhaseColumns | measurement.py:28 | the marker header already ends with the six phase columns, each once |
| LogStore.MarkerStepFails | measurement.py:38-41 | one marker row plus back-fill fails exactly when the file existed but was empty |
| LogStore.MarkerLogRows | measurement.py:21-94 | the marker table after any number of points is its header plus one completed row per point |
| LogStore.LogFolder.constructor | measurement.py:167-170 | a new folder has neither file |
| LogStore.LogFolder.SaveSettingsCsv | measurement.py:10-19 | `setting_log.csv` gains the header if missing, then the settings row |
| LogStore.LogFolder.AppendMarkerData | measurement.py:21-30 | `marker_table.csv` gains the header if missing, then the marker row |
| LogStore.LogFolder.AppendPhaseData | measurement.py:32-94 | the marker table becomes its back-fill, or stays as it was and the error is returned |
| Sweep.BuildAxis | measurement.py:176-182 | corrected: on an axis that ends (`step > 0`, or `start > stop`) the loop produces exactly the axis's values; a non-swept axis gives its one value |
| Sweep.LoopNeverEnds | measurement.py:176-180 | as written, with `step <= 0` and `start <= stop` the guard `val <= stop` still holds after any number `n` of passes, with `val = start + n * step` and `n` values appended |
| Sweep.StepsSpec | measurement.py:176-180 | a stepped axis is empty exactly when start > stop; otherwise it starts at start, every value is at most stop, consecutive values differ by the step, and one more step would pass stop |
| Sweep.StepsClosedForm | measurement.py:176-180 | value `i` is `start + i * step` |
| Sweep.StepsIncreasing | measurement.py:176-180 | the values strictly increase |
| Sweep.StepsComplete | measurement.py:176-180 | every `start + i * step` up to stop is on the axis |
| Sweep.ProductLength | measurement.py:281-445 | the nested loops visit as many points as the product of the axis lengths |
| Sweep.ProductOrder | measurement.py:281-445 | the outermost axis varies slowest: point `i * inner + j` is value `i` of the first axis in front of inner point `j` |
| Sweep.ProductWidth | measurement.py:281-445 | every point has one value per axis |
| Sweep.ProductInnermost | measurement.py:369 | the innermost axis (INST2 CH3) varies fastest: point `q * n + j` ends with its value `j` |
| Sequencer.SettingsVoltages | measurement.py:389 | corrected: the six logged voltages are the point's six voltages in channel order |
| Sequencer.VoltagesAsWrittenAgree | measurement.py:389 | as written, the voltages logged agree with the point's exactly when INST2 CH2 equals INST2 CH3; the CH2 column always holds CH3's value |
| Sequencer.VoltagesAsWrittenDiffer | measurement.py:389 | with voltages 1..6 the CH2 column logs 6 |
| Sequencer.AllFaithfulEach | measurement.py:389 | the recursive "every point logs its own Kp, Ki and DCO" equals the per-point statement |
| Sequencer.Reg0StartShape | measurement.py:187-190 | the starting register 0 is the template with `en_dsm` at bit 4 and `dlf_mode` at bit 6 |
| Sequencer.Reg1TemplateShape | measurement.py:174 | register 1's template has zeros in positions 0-5 |
| Sequencer.Reg0Splice | measurement.py:295-299 | splicing Kp or Ki keeps the rest of register 0, mode bits included |
| Sequencer.Reg1Splice | measurement.py:282-283 | splicing the DCO keeps positions 0-5 of register 1 |
| Sequencer.Reg1WordValue | measurement.py:389 | for a word whose six top bits are zero (every word the sweep writes, hence every echoed readback), `int("".join(reg1), 2)`, the logged `init_dco`, equals the DCO field of the read-back word |
| Sequencer.Exchange | measurement.py:285-290 | the write is one frame that decodes back to the word; the word read back is that word when the chip echoes it |
| Sequencer.ProgramDco | measurement.py:281-293 | corrected: an out-of-range DCO stops the run with nothing sent; a failed readback stops it after the write; with an echoing chip the read-back word holds the swept DCO |
| Sequencer.ProgramKi | measurement.py:297-308 | corrected: the same for register 0 with the swept Ki, keeping Kp and the mode bits |
| Sequencer.MeasurePoint | measurement.py:387-436 | a point appends one settings row and one marker row with its phase values; it fails exactly when the marker file was empty |
| Sequencer.MeasurePoints | measurement.py:309-445 | the inner loops log their points in nested-loop order, numbered from the current `total_idx`, and stop only on a failed back-fill |
| Sequencer.KiPass | measurement.py:297-445 | one Ki value: program register 0, then log the inner points under it |
| Sequencer.SweepKi | measurement.py:297-445 | the Ki loop logs a prefix of its points, all of them unless the run aborts |
| Sequencer.KpPass | measurement.py:294-445 | corrected: one Kp value is range-checked and spliced (no write of its own), then the Ki loop runs |
| Sequencer.SweepKp | measurement.py:294-445 | the Kp loop logs a prefix of its points, all of them unless the run aborts |
| Sequencer.DcoPass | measurement.py:281-445 | one DCO code: program register 1, then run the Kp loop with the read-back DCO |
| Sequencer.SweepDco | measurement.py:281-445 | the DCO loop logs a prefix of the product of all axes, all of it unless the run aborts |
| Sequencer.LoggedStep | measurement.py:389-445 | one more point adds its settings row and its marker step under index `idx0 + |visits|` |
| Sequencer.LoggedConcat | measurement.py:279-445 | the logs of two runs of points one after the other are the logs of all the points |
| Sequencer.ReplayEmpty | measurement.py:38-41 | the marker table is an existing empty file only if it was so before and no point was logged |
| Sequencer.ExplainsLift | measurement.py:283-308 | a failure explained by the marker table after some points is explained by the table before them |
| Sequencer.Measurement | measurement.py:96-446 | corrected (range checks, CH2 column): the whole run: the axes are built from the form, points are logged in nested-loop order from index 1, every write keeps the templates, an echoing chip makes every row log its own Kp/Ki/DCO, and an in-range sweep on a reliable adapter logs every point of the product |
| Sequencer.RunLogs | measurement.py:279-445 | after a run, each file is absent exactly when no point was taken; otherwise it is its header plus one row per point |
| Sequencer.RunRow | measurement.py:389-421 | corrected (CH2 column): row `k + 1` of each file is point `k`'s, with index `k + 1`; with a faithful readback its kp, ki, init_dco, freq and six voltage cells are the point's values |

## Left out

- The tkinter GUI: the instrument tabs, widget construction and the `IntVar`/`StringVar` plumbing. The panel keeps only the values its register tab holds.
- The instrument drivers (FSV3000, SMB100B, E36313A, SHT85) and the Cheetah SPI calls. Their setters, settling sleeps, screen captures and prints have no effect on the model's state. Their readings are the `Meter` parameter.
- The sensor's failure result (`getTempHumid` returning `False`, which the caller unpacks). Readings are total.
- Floating point. Axes are integers in fixed-point units, so `round(val, 10)` is the identity. `round(temp, 2)` is left to the text of the reading. `ovp = voltage + 2.0` is not modelled because it only reaches a supply.
- CSV quoting, file encoding, paths and the timestamped folder name. A file is an optional sequence of rows of text cells.
- Sweep.BuildAxis: an axis whose step is `<= 0` while start <= stop is required away (`Terminates`). The source's `while val <= stop` loop never ends on such an axis (see Findings and `Sweep.LoopNeverEnds`). With start > stop it yields no values, as in the model.
- Sequencer.MeasurePoints: the seven inner loops (frequency and six voltages) are one loop over the product of their axes. The order is the same, but the loop structure is not kept.
- Sequencer.Measurement: the source's `return False, e` is the `Aborted` outcome with the reason. An uncaught exception (`append_phase_data` on an empty marker file) is an `Aborted` outcome too. The model does not model a Python traceback.
- Sequencer.Measurement: the readback after each write is decoded and logged but never compared with the word written, as in the source.
- Sequencer.Measurement: a DCO, Kp or Ki outside its field is rejected with `SettingRejected`, which ends the run before anything is sent for that value. The source has no range check: an oversized value is written as the wrapped word and the run goes on; an oversized Kp also leaves the register 0 list seventeen long, so every later register 0 word of the run is shifted (`Registers.Kp16ShiftsLaterWords`), while register 1 is not, since `binary_reg1[6:]` replaces the whole tail; a negative Ki is written as the wrapped word too; a negative Kp or DCO makes `bin16_to_hex4` raise outside the `try` (measurement.py:285, 300), which ends the run with an exception. The as-written behaviour is shown by `Registers.Ki16ProgramsKiZero`, `Registers.Kp16ShiftsLaterWords`, `Registers.KiMinusOneProgramsKi14`, `Registers.KpNegativeRaises` and `Registers.DcoNegativeRaises`.
- Sequencer.Measurement: the settings row logs INST2 CH2's own voltage in `voltage_INST2_CH2_V`, the corrected form of measurement.py:389 (see Findings). The as-written row is `Sequencer.VoltagesAsWrittenAgree`.
- LogStore.BackFillFrame: only the last row is padded, as the code does (measurement.py:43-44).
- Panel.RegisterPanel.WriteAllRegisters: the model range-checks Kp, Ki and the DCO and reports a value outside its field as an `EncodeFailed` status, sending nothing from that register on. The source has no such check (main.py:229-243). An oversized Kp or Ki, or a negative Ki, is written as the wrapped word with the status "쓰기 완료" (`Registers.Ki16ProgramsKp15`, `Registers.KiMinusOneProgramsKi14`). A negative Kp or DCO makes `bin16_to_hex4` raise outside the `try` at main.py:241, so the callback ends with an exception and the status is unchanged (`Registers.KpNegativeRaises`, `Registers.DcoNegativeRaises`). For a negative DCO, register 0 has already been written.
- Panel.ManualWrite: `int()` and `str.upper()` are modelled on ASCII only. Non-ASCII digits and white space, and Unicode upper-casing (for example `'ﬀ'` becoming `"FF"`), are not modelled.
- Util.PyInt: CPython's limit of 4300 digits for decimal text is not modelled, nor are non-ASCII digits and white space.
- Spi.WriteRegister: the text is parsed by `Util.PyInt`, so the same non-ASCII forms are not modelled.
- Panel.RegisterPanel.WriteManualRegister: the write rejection is the `writeFails` parameter. The adapter's own error text is not modelled.
- Util.ChangeFreqUnit: computed over integers. The float products `freq * 1e3`, `1e6` and `1e9` are not modelled.
- The `set_label_text` and `toggle_frame` helpers of util.py. They only touch widgets.

## Findings

| source | as written | input that shows it | evidently intended | confidence | as-written member | corrected member |
|---|---|---|---|---|---|---|
| measurement.py:294-303 (also measurement.py:282-283) | `f"{v:04b}"` (and `:010b` for the DCO) is spliced into the register list without a range check. A value that does not fit lengthens the list, `bin16_to_hex4` returns five digits, and `keti_spi_write` keeps only the low sixteen bits. An oversized Kp leaves the register 0 list seventeen long, so every later register 0 word of the run is shifted; register 1 is not, since `binary_reg1[6:]` replaces the whole tail. | Kp 7, Ki 16: the word "10000011100011001" becomes hex "10719", the frame is `[0, 0x07, 0x19]`, and the chip is programmed with Ki 0. Kp 15..16 with Ki 7 over two DCO codes: under the second, Kp 15 is written as "01111111000011001", the frame is `[0, 0xFE, 0x19]`, and the chip is programmed with Ki 15 and Kp 14 | reject a Kp or Ki outside 0..15 and a DCO outside 0..1023 | not executed | Registers.Ki16ProgramsKiZero, Registers.Kp16ShiftsLaterWords | Registers.EncodeFieldSpec |
| main.py:229-243 | the register tab splices Ki, then Kp, without a range check; `bin16_to_hex4` and `int(hex_str, 16)` accept a minus sign at the front | Kp 7, Ki 16 sends `[0, 0x0F, 0x19]` (Ki 0, Kp 15); Kp 7, Ki -1 sends `[0, 0xE8, 0xE7]` (Ki 14, Kp 8); both report success | reject a Kp or Ki outside 0..15 and a DCO outside 0..1023 before writing | not executed | Registers.KiMinusOneProgramsKi14 | Registers.EncodeRegisterDecodes |
| measurement.py:176-180 (also 193-196, 201-204, 217-221) | `while val <= stop: ... val += step` with no check on the step | start 0, stop 10, step 0: `val` stays 0 and the list grows forever | refuse a step `<= 0` when start <= stop | not executed | Sweep.LoopNeverEnds | Sweep.BuildAxis |
| measurement.py:389 | `save_settings_csv` is passed `voltage_2_3` twice, in the `voltage_2_2` and `voltage_2_3` positions | a point with INST2 CH2 = 5 V and CH3 = 6 V logs 6 in `voltage_INST2_CH2_V` | pass `voltage_2_2` for the CH2 column | not executed | Sequencer.VoltagesAsWrittenDiffer | Sequencer.RunRow |
