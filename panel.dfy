/**
 * The register panel of main.py's `Application`: the Kp, Ki and initial
 * DCO entries and the bit radio buttons of `reg_settings`, the status
 * line, and the readback table. The widgets are reduced to the values
 * they hold; the SPI transfers are the frames of module Spi, and which
 * register writes the adapter rejects is a parameter.
 */
module Panel {
  import opened Wrappers
  import opened Util
  import opened Spi
  import opened Registers

  /** The registers of `reg_settings`, in the dictionary's order. */
  const RegisterOrder: seq<int> := [0, 1, 15]

  datatype ManualError =
    | NotAnInteger(text: string)
    | AddressOutOfRange(addr: int)
    | NotFourHexDigits(text: string)

  /** What the status label shows. */
  datatype Status =
    | Idle
    | WriteDone
    | EncodeFailed(error: EncodeError)
    | ManualRejected(reason: ManualError)
    | WriteFailed(addr: int)

  /** A row of the readback table: an address and its word, or the error row. */
  datatype TreeRow = Entry(address: string, value: string) | ErrorRow

  // ---------------------------------------------------------------------
  // Manual write
  // ---------------------------------------------------------------------

  /** `int(str(n)) == n`: parsing undoes printing. */
  lemma ParseIntString(n: int)
    ensures PyInt(IntToString(n), 10) == Some(n)
  {
    if n < 0 {
      assert IntToString(n) == "-" + Format(-n, 10, 1);
      FormatValue(-n, 10, 1);
      MinusDigits(Format(-n, 10, 1), 10, -n);
    } else {
      FormatDigits(n, 10, 1);
    }
  }

  /**
   * `write_manual_register`: parse the address, upper-case the value,
   * reject an address outside 0..255, then anything but four hex digits,
   * and frame the write.
   */
  function ManualWrite(addrText: string, valText: string): Result<seq<byte>, ManualError>
  {
    match PyInt(addrText, 10)
    case None => Err(NotAnInteger(addrText))
    case Some(addr) =>
      var val := Upper(valText);
      if !(0 <= addr <= 255) then Err(AddressOutOfRange(addr))
      else if !(|val| == 4 && IsUpperHex(val)) then Err(NotFourHexDigits(val))
      else
        assert IsDigits(val, 16);
        PyIntDigits(val, 16);
        Ok(WriteRegisterFrame(addr, val).value)
  }

  /**
   * A manual write goes through exactly when the address text is an
   * integer in 0..255 and the value is four hex digits in either case; the
   * frame then carries that address and the digits' sixteen-bit value.
   */
  lemma ManualWriteSpec(addrText: string, valText: string)
    ensures ManualWrite(addrText, valText).Ok? <==>
      && PyInt(addrText, 10).Some?
      && 0 <= PyInt(addrText, 10).value <= 255
      && |valText| == 4 && IsUpperHex(Upper(valText))
    ensures ManualWrite(addrText, valText).Ok? ==>
      var frame := ManualWrite(addrText, valText).value;
      && |frame| == 3
      && frame[0] == PyInt(addrText, 10).value
      && frame[1] as int * 256 + frame[2] == ValueOf(Upper(valText), 16)
    ensures PyInt(addrText, 10).None? ==> ManualWrite(addrText, valText) == Err(NotAnInteger(addrText))
  {
    if ManualWrite(addrText, valText).Ok? {
      var val := Upper(valText);
      assert IsDigits(val, 16);
      WriteRegisterFrameSpec(PyInt(addrText, 10).value, val);
    }
  }

  /**
   * The address goes through `int()`, so white space around it and an
   * underscore between its digits are accepted, and the value is
   * upper-cased first: "12 " and "1_2" with "abcd" both write 0xABCD to
   * register 12.
   */
  lemma ManualWriteLenient()
    ensures ManualWrite("12 ", "abcd") == Ok([12, 0xAB, 0xCD])
    ensures ManualWrite("1_2", "abcd") == Ok([12, 0xAB, 0xCD])
  {
    Address12("12 ");
    Address12("1_2");
  }

  lemma Address12(addrText: string)
    requires addrText == "12 " || addrText == "1_2"
    ensures ManualWrite(addrText, "abcd") == Ok([12, 0xAB, 0xCD])
  {
    var x, y := "1", "2";
    assert IsDigits(x, 10) && IsDigits(y, 10) && IsDigits(x + y, 10);
    assert x + y == "12" && ValueOf("12", 10) == 12 by {
      assert "12"[..1] == "1" && "1"[..0] == [];
    }
    PyIntDigits("12", 10);
    if addrText == "12 " {
      assert addrText == "" + "12" + " ";
      PyIntSpaces("", "12", " ", 10);
    } else {
      PyIntUnderscore(x, y, 10);
      assert addrText == x + "_" + y;
    }
    WriteAbcd(addrText);
  }

  /** Any address text `int()` reads as 12, with the value "abcd". */
  lemma WriteAbcd(addrText: string)
    requires PyInt(addrText, 10) == Some(12)
    ensures ManualWrite(addrText, "abcd") == Ok([12, 0xAB, 0xCD])
  {
    ParseAbcd();
    FrameAbcd("ABCD");
  }

  lemma ParseAbcd()
    ensures Upper("abcd") == "ABCD" && IsUpperHex("ABCD")
    ensures PyInt("ABCD", 16) == Some(0xABCD)
  {
    UpperAbcd();
    AbcdValue();
    PyIntDigits("ABCD", 16);
  }

  lemma UpperAbcd()
    ensures Upper("abcd") == "ABCD" && IsUpperHex("ABCD")
  {
  }

  lemma AbcdValue()
    ensures IsDigits("ABCD", 16) && ValueOf("ABCD", 16) == 0xABCD
  {
    assert "ABCD"[..3] == "ABC" && "ABC"[..2] == "AB" && "AB"[..1] == "A" && "A"[..0] == [];
  }

  lemma FrameAbcd(h: string)
    requires PyInt(h, 16) == Some(0xABCD)
    ensures WriteRegisterFrame(12, h) == Some([12, 0xAB, 0xCD])
  {
  }

  // ---------------------------------------------------------------------
  // Readback decoding
  // ---------------------------------------------------------------------

  /** `hex(i)[2:].upper()`: the address column of the readback table. */
  function AddressLabel(i: nat): string
  {
    Format(i, 16, 1)
  }

  /** The label is the canonical upper-case hex text of the address. */
  lemma AddressLabelSpec(i: nat)
    ensures |AddressLabel(i)| >= 1 && IsUpperHex(AddressLabel(i)) && IsDigits(AddressLabel(i), 16)
    ensures ValueOf(AddressLabel(i), 16) == i
    ensures i < 16 <==> |AddressLabel(i)| == 1
    ensures |AddressLabel(i)| > 1 ==> AddressLabel(i)[0] != '0'
  {
    FormatValue(i, 16, 1);
    PowValues();
    FormatLength(i, 16, 1);
    if NumDigits(i, 16) > 1 {
      ZeroLeadNotNeeded(i, 16);
    }
  }

  /** The table `read_registers` fills from the forty bytes of twenty words. */
  function ReadbackRows(a: seq<byte>): seq<TreeRow>
    requires |a| >= 40
  {
    seq(20, i requires 0 <= i < 20 => Entry(AddressLabel(i), WordHex(a[2 * i], a[2 * i + 1])))
  }

  /** Every row names its word's address and holds that word as four hex digits. */
  lemma ReadbackRowsSpec(a: seq<byte>, i: nat)
    requires |a| >= 40 && i < 20
    ensures ReadbackRows(a)[i].Entry?
    ensures IsDigits(ReadbackRows(a)[i].address, 16) && ValueOf(ReadbackRows(a)[i].address, 16) == i
    ensures |ReadbackRows(a)[i].value| == 4 && IsUpperHex(ReadbackRows(a)[i].value)
    ensures IsDigits(ReadbackRows(a)[i].value, 16)
    ensures ValueOf(ReadbackRows(a)[i].value, 16) == a[2 * i] as int * 256 + a[2 * i + 1]
  {
    AddressLabelSpec(i);
    WordHexSpec(a[2 * i], a[2 * i + 1]);
  }

  /** The radio buttons of a register after `var.set(int(bin_val[15 - bit]))`. */
  function ReadBitSettings(bits: map<int, Bit>, w: string): (r: map<int, Bit>)
    requires |w| == 16 && BitIndices(bits)
    ensures r.Keys == bits.Keys
  {
    map b | b in bits :: GetBit(w, b)
  }

  /**
   * What the device sends back for a word `write_all_registers` wrote
   * decodes to the entries it was written from: Ki and Kp for register
   * 0, the initial DCO code for register 1, and every bit setting.
   */
  lemma ReadbackOfWrittenWord(addr: int, bits: map<int, Bit>, kp: int, ki: int, dco: int)
    requires BitsOutsideFields(addr, bits)
    requires EncodeRegister(addr, bits, kp, ki, dco).Ok?
    ensures IsBits16(EncodeRegister(addr, bits, kp, ki, dco).value)
    ensures var frame := RegisterFrame(addr, EncodeRegister(addr, bits, kp, ki, dco).value);
      var w := ReadBits(frame[1], frame[2]);
      && (addr == 0 ==> FieldValue(w, KiField) == ki && FieldValue(w, KpField) == kp)
      && (addr == 1 ==> FieldValue(w, DcoField) == dco)
      && ReadBitSettings(bits, w) == bits
  {
    EncodeRegisterDecodes(addr, bits, kp, ki, dco);
    RegisterFrameSpec(addr, EncodeRegister(addr, bits, kp, ki, dco).value);
  }

  /**
   * The settings cover registers 0, 1 and 15 of the readback range, and
   * each register's bits lie clear of its fields.
   */
  ghost predicate SettingsShape(bitVars: map<int, map<int, Bit>>)
  {
    && 0 in bitVars && 1 in bitVars && 15 in bitVars
    && forall r :: r in bitVars ==> 0 <= r < 20 && BitsOutsideFields(r, bitVars[r])
  }

  /** `write_register(addr, bin16_to_hex4(w))` for a register text. */
  method SendRegister(addr: int, w: string) returns (frame: seq<byte>)
    requires IsBits16(w)
    ensures frame == RegisterFrame(addr, w)
  {
    Bin16ToHex4Spec(w);
    RegisterFrameSent(addr, w);
    var hex := Bin16ToHex4(w).value;
    var sent := WriteRegister(addr, hex);
    frame := sent.value;
  }

  /** Every register text that was built is sixteen binary digits. */
  predicate AllBits16(texts: seq<Result<string, EncodeError>>)
  {
    forall j :: 0 <= j < |texts| && texts[j].Ok? ==> IsBits16(texts[j].value)
  }

  /** The register texts `write_all_registers` builds for registers 0, 1 and 15, in that order. */
  function RegisterTexts(bitVars: map<int, map<int, Bit>>, kp: int, ki: int, dco: int): (texts: seq<Result<string, EncodeError>>)
    requires SettingsShape(bitVars)
    ensures |texts| == 3 && AllBits16(texts)
  {
    EncodeRegisterBits(0, bitVars[0], kp, ki, dco);
    EncodeRegisterBits(1, bitVars[1], kp, ki, dco);
    EncodeRegisterBits(15, bitVars[15], kp, ki, dco);
    seq(3, j requires 0 <= j < 3 => EncodeRegister(RegisterOrder[j], bitVars[RegisterOrder[j]], kp, ki, dco))
  }

  /** The frames `write_all_registers` sends, and the input error that stops it, if any. */
  datatype Plan = Plan(sent: seq<seq<byte>>, stop: Option<EncodeError>)

  /**
   * What the loop of `write_all_registers` does from the `k`-th register
   * of `reg_settings` on, given the texts built for them: frame and send
   * each in turn, and stop at the first that could not be built.
   */
  ghost function WritePlan(k: nat, texts: seq<Result<string, EncodeError>>): Plan
    requires k <= |texts| == |RegisterOrder| && AllBits16(texts)
    decreases |texts| - k
  {
    if k == |texts| then Plan([], None)
    else match texts[k]
      case Err(e) => Plan([], Some(e))
      case Ok(w) =>
        var rest := WritePlan(k + 1, texts);
        Plan([RegisterFrame(RegisterOrder[k], w)] + rest.sent, rest.stop)
  }

  /** The sixteen-bit text `f"{int(val_hex, 16):016b}"` of each of the twenty words read back. */
  function ReadbackBins(data: seq<byte>): (bins: seq<string>)
    requires |data| >= 40
    ensures |bins| == 20 && forall j :: 0 <= j < 20 ==> IsBits16(bins[j])
  {
    seq(20, j requires 0 <= j < 20 => ReadBits(data[2 * j], data[2 * j + 1]))
  }

  /**
   * The two list comprehensions of `read_registers`: the twenty words as
   * hex text, and the table rows pairing each with its address label;
   * with them the sixteen-bit text of each word.
   */
  method DecodeReadback(data: seq<byte>) returns (words: seq<string>, table: seq<TreeRow>, bins: seq<string>)
    requires |data| >= 40
    ensures |words| == 20
    ensures forall j :: 0 <= j < 20 ==> words[j] == WordHex(data[2 * j], data[2 * j + 1])
    ensures table == ReadbackRows(data)
    ensures bins == ReadbackBins(data)
  {
    words := [];
    for i := 0 to 20
      invariant |words| == i
      invariant forall j :: 0 <= j < i ==> words[j] == WordHex(data[2 * j], data[2 * j + 1])
    {
      words := words + [WordHex(data[2 * i], data[2 * i + 1])];
    }
    table := [];
    for i := 0 to 20
      invariant |table| == i
      invariant forall j :: 0 <= j < i ==> table[j] == ReadbackRows(data)[j]
    {
      table := table + [Entry(AddressLabel(i), words[i])];
    }
    bins := WordBins(data, words);
  }

  /** `f"{int(val_hex, 16):016b}"` for one word read back as the hex text `word`. */
  method WordBits(hi: byte, lo: byte, word: string) returns (bin: string)
    requires word == WordHex(hi, lo)
    ensures bin == ReadBits(hi, lo)
  {
    ReadBitsDecodes(hi, lo);
    bin := Hex4ToBin16(word).value;
  }

  /** `f"{int(val_hex, 16):016b}"` for each of the twenty words read back. */
  method WordBins(data: seq<byte>, words: seq<string>) returns (bins: seq<string>)
    requires |data| >= 40 && |words| == 20
    requires forall j :: 0 <= j < 20 ==> words[j] == WordHex(data[2 * j], data[2 * j + 1])
    ensures bins == ReadbackBins(data)
  {
    bins := [];
    for i := 0 to 20
      invariant |bins| == i
      invariant forall j :: 0 <= j < i ==> bins[j] == ReadBits(data[2 * j], data[2 * j + 1])
    {
      var bin := WordBits(data[2 * i], data[2 * i + 1], words[i]);
      bins := bins + [bin];
    }
  }

  /** The loop `for bit, var in ...: var.set(int(bin_val[15 - bit]))` of `read_registers`. */
  method ReadSettings(bits: map<int, Bit>, bin: string) returns (settings: map<int, Bit>)
    requires |bin| == 16 && BitIndices(bits)
    ensures settings == ReadBitSettings(bits, bin)
  {
    settings := bits;
    for bit := 0 to 16
      invariant settings.Keys == bits.Keys
      invariant forall b :: b in settings ==> settings[b] == if b < bit then GetBit(bin, b) else bits[b]
    {
      if bit in settings {
        settings := settings[bit := GetBit(bin, bit)];
      }
    }
  }

  /** The bit settings of every register once `read_registers` has loaded the readback. */
  function ReadbackSettings(bitVars: map<int, map<int, Bit>>, bins: seq<string>): (r: map<int, map<int, Bit>>)
    requires |bins| == 20 && forall j :: 0 <= j < 20 ==> IsBits16(bins[j])
    requires forall reg :: reg in bitVars ==> 0 <= reg < 20 && BitIndices(bitVars[reg])
  {
    map reg | reg in bitVars :: assert IsBits16(bins[reg]); ReadBitSettings(bitVars[reg], bins[reg])
  }

  /** Loading the readback keeps the registers, their bits and so their shape. */
  lemma ReadbackSettingsShape(bitVars: map<int, map<int, Bit>>, bins: seq<string>)
    requires |bins| == 20 && forall j :: 0 <= j < 20 ==> IsBits16(bins[j])
    requires SettingsShape(bitVars)
    ensures SettingsShape(ReadbackSettings(bitVars, bins))
    ensures ReadbackSettings(bitVars, bins).Keys == bitVars.Keys
    ensures forall reg :: reg in bitVars ==> ReadbackSettings(bitVars, bins)[reg].Keys == bitVars[reg].Keys
  {
  }

  /**
   * The loop `for reg_idx, val_hex in enumerate(read_values)` of
   * `read_registers` (main.py:269-283): each register of `reg_settings`
   * takes its bits from `bin_val`, register 0 also gives Ki and Kp and
   * register 1 the initial DCO code.
   */
  method LoadReadback(bitVars: map<int, map<int, Bit>>, bins: seq<string>)
    returns (loaded: map<int, map<int, Bit>>, ki: int, kp: int, initDco: int)
    requires SettingsShape(bitVars)
    requires |bins| == 20 && forall j :: 0 <= j < 20 ==> IsBits16(bins[j])
    ensures loaded == ReadbackSettings(bitVars, bins)
    ensures ki == FieldValue(bins[0], KiField) && kp == FieldValue(bins[0], KpField)
    ensures initDco == FieldValue(bins[1], DcoField)
  {
    loaded := bitVars;
    ki, kp, initDco := 0, 0, 0;
    for reg := 0 to 20
      invariant loaded.Keys == bitVars.Keys
      invariant forall r :: r in loaded ==>
        loaded[r] == if r < reg then ReadBitSettings(bitVars[r], bins[r]) else bitVars[r]
      invariant reg > 0 ==> ki == FieldValue(bins[0], KiField) && kp == FieldValue(bins[0], KpField)
      invariant reg > 1 ==> initDco == FieldValue(bins[1], DcoField)
    {
      if reg in loaded {
        var bin := bins[reg];
        var settings := ReadSettings(loaded[reg], bin);
        loaded := loaded[reg := settings];
        if reg == 0 {
          ki := FieldValue(bin, KiField);
          kp := FieldValue(bin, KpField);
        } else if reg == 1 {
          initDco := FieldValue(bin, DcoField);
        }
      }
    }
  }

  /**
   * One register of `write_all_registers`: the template with the bit
   * settings, then the range-checked fields.
   */
  method BuildRegister(addr: int, bits: map<int, Bit>, kp: int, ki: int, dco: int) returns (r: Result<string, EncodeError>)
    requires BitsOutsideFields(addr, bits)
    ensures r == EncodeRegister(addr, bits, kp, ki, dco)
  {
    TemplatesAreBits(addr);
    var binary := ApplyBitSettings(Template(addr), bits);
    ApplyBitsBits(Template(addr), bits);
    if addr == 0 {
      EncodeFieldSpec(binary, KiField, ki);
      var withKi := EncodeField(binary, KiField, ki);
      if withKi.Err? {
        return Err(withKi.error);
      }
      EncodeFieldSpec(withKi.value, KpField, kp);
      r := EncodeField(withKi.value, KpField, kp);
    } else if addr == 1 {
      EncodeFieldSpec(binary, DcoField, dco);
      r := EncodeField(binary, DcoField, dco);
    } else {
      r := Ok(binary);
    }
  }

  /**
   * `texts` are the register texts built for registers 0, 1 and 15. The
   * trigger keeps the encodings folded until a register is actually built.
   */
  ghost predicate BuiltTexts(texts: seq<Result<string, EncodeError>>, bitVars: map<int, map<int, Bit>>, kp: int, ki: int, dco: int)
    requires SettingsShape(bitVars)
  {
    && |texts| == 3
    && forall j {:trigger EncodeRegister(RegisterOrder[j], bitVars[RegisterOrder[j]], kp, ki, dco)} :: 0 <= j < 3 ==>
         texts[j] == EncodeRegister(RegisterOrder[j], bitVars[RegisterOrder[j]], kp, ki, dco)
  }

  lemma RegisterTextsBuilt(bitVars: map<int, map<int, Bit>>, kp: int, ki: int, dco: int)
    requires SettingsShape(bitVars)
    ensures BuiltTexts(RegisterTexts(bitVars, kp, ki, dco), bitVars, kp, ki, dco)
  {
  }

  /** The `k`-th register of `reg_settings`, built as `write_all_registers` builds it. */
  method BuildRegisterAt(k: nat, bitVars: map<int, map<int, Bit>>, kp: int, ki: int, dco: int, ghost texts: seq<Result<string, EncodeError>>)
    returns (r: Result<string, EncodeError>)
    requires SettingsShape(bitVars) && k < 3 && BuiltTexts(texts, bitVars, kp, ki, dco)
    ensures r == texts[k]
  {
    var addr := RegisterOrder[k];
    r := BuildRegister(addr, bitVars[addr], kp, ki, dco);
  }

  /**
   * The loop of `write_all_registers` (main.py:222-246) over registers 0,
   * 1 and 15: an entry that does not fit its field stops it with an input
   * error; otherwise each register is framed and sent, and the status
   * shows the outcome of the last write.
   */
  method WriteRegisters(bitVars: map<int, map<int, Bit>>, kp: int, ki: int, dco: int, writeFails: set<int>,
                        ghost texts: seq<Result<string, EncodeError>>)
    returns (frames: seq<seq<byte>>, status: Status)
    requires SettingsShape(bitVars) && BuiltTexts(texts, bitVars, kp, ki, dco) && AllBits16(texts)
    ensures frames == WritePlan(0, texts).sent
    ensures status == match WritePlan(0, texts).stop
      case Some(e) => EncodeFailed(e)
      case None => if 15 in writeFails then WriteFailed(15) else WriteDone
  {
    ghost var plan := WritePlan(0, texts);
    frames := [];
    status := Idle;
    for k := 0 to 3
      invariant frames + WritePlan(k, texts).sent == plan.sent
      invariant WritePlan(k, texts).stop == plan.stop
      invariant k > 0 ==> status == if RegisterOrder[k - 1] in writeFails then WriteFailed(RegisterOrder[k - 1]) else WriteDone
    {
      var addr := RegisterOrder[k];
      var enc := BuildRegisterAt(k, bitVars, kp, ki, dco, texts);
      if enc.Err? {
        status := EncodeFailed(enc.error);
        return;
      }
      var frame := SendRegister(addr, enc.value);
      frames := frames + [frame];
      status := if addr in writeFails then WriteFailed(addr) else WriteDone;
    }
  }

  class RegisterPanel {
    var kp: int
    var ki: int
    var initDco: int
    /** The IntVars of `reg_settings`, by register and then bit. */
    var bitVars: map<int, map<int, Bit>>
    var status: Status
    var rows: seq<TreeRow>

    ghost predicate Valid()
      reads this`bitVars
    {
      SettingsShape(bitVars)
    }

    /** The initial entries of `Application.__init__` (main.py:23-56). */
    constructor ()
      ensures Valid()
      ensures kp == 7 && ki == 7 && initDco == 135
      ensures bitVars == map[0 := DefaultBits(0), 1 := DefaultBits(1), 15 := DefaultBits(15)]
      ensures status == Idle && rows == []
    {
      kp := 7;
      ki := 7;
      initDco := 135;
      bitVars := map[0 := DefaultBits(0), 1 := DefaultBits(1), 15 := DefaultBits(15)];
      DefaultBitsOutsideFields(0);
      DefaultBitsOutsideFields(1);
      DefaultBitsOutsideFields(15);
      status := Idle;
      rows := [];
    }

    /**
     * `write_all_registers` (main.py:222-246): registers 0, 1 and 15 in
     * turn; an entry that does not fit its field stops the loop with an
     * input error, and a write the adapter rejects (`writeFails`) shows
     * its error without stopping the loop. Returns the frames sent.
     */
    method WriteAllRegisters(writeFails: set<int>) returns (frames: seq<seq<byte>>)
      requires Valid()
      modifies this`status
      ensures frames == WritePlan(0, RegisterTexts(bitVars, kp, ki, initDco)).sent
      ensures status == match WritePlan(0, RegisterTexts(bitVars, kp, ki, initDco)).stop
        case Some(e) => EncodeFailed(e)
        case None => if 15 in writeFails then WriteFailed(15) else WriteDone
    {
      RegisterTextsBuilt(bitVars, kp, ki, initDco);
      frames, status := WriteRegisters(bitVars, kp, ki, initDco, writeFails, RegisterTexts(bitVars, kp, ki, initDco));
    }

    /**
     * `write_manual_register` (main.py:248-258): returns the frame sent,
     * if the entries pass validation.
     */
    method WriteManualRegister(addrText: string, valText: string, writeFails: set<int>) returns (frame: Option<seq<byte>>)
      requires Valid()
      modifies this`status
      ensures Valid()
      ensures kp == old(kp) && ki == old(ki) && initDco == old(initDco)
      ensures bitVars == old(bitVars) && rows == old(rows)
      ensures ManualWrite(addrText, valText).Err? ==>
        frame == None && status == ManualRejected(ManualWrite(addrText, valText).error)
      ensures ManualWrite(addrText, valText).Ok? ==>
        && frame == Some(ManualWrite(addrText, valText).value)
        && var addr := PyInt(addrText, 10).value;
           status == if addr in writeFails then WriteFailed(addr) else WriteDone
    {
      var r := ManualWrite(addrText, valText);
      if r.Err? {
        status := ManualRejected(r.error);
        return None;
      }
      var addr := PyInt(addrText, 10).value;
      frame := Some(r.value);
      status := if addr in writeFails then WriteFailed(addr) else WriteDone;
    }

    /**
     * `read_registers` (main.py:260-288): twenty words from address 2;
     * the table shows each word, and the entries of registers 0, 1 and 15
     * take the values decoded from theirs. A failed or short read leaves
     * only the error row.
     */
    method ReadRegisters(a: Option<seq<byte>>)
      requires Valid()
      modifies this
      ensures Valid() && status == old(status)
      ensures (a.None? || |a.value| < 40) ==>
        && rows == [ErrorRow]
        && kp == old(kp) && ki == old(ki) && initDco == old(initDco) && bitVars == old(bitVars)
      ensures a.Some? && |a.value| >= 40 ==>
        && rows == ReadbackRows(a.value)
        && ki == FieldValue(ReadBits(a.value[0], a.value[1]), KiField)
        && kp == FieldValue(ReadBits(a.value[0], a.value[1]), KpField)
        && initDco == FieldValue(ReadBits(a.value[2], a.value[3]), DcoField)
        && bitVars == ReadbackSettings(old(bitVars), ReadbackBins(a.value))
    {
      if a.None? || |a.value| < 40 {
        rows := [ErrorRow];
        return;
      }
      var data := a.value;
      var words, table, bins := DecodeReadback(data);
      rows := table;
      ReadbackSettingsShape(bitVars, bins);
      bitVars, ki, kp, initDco := LoadReadback(bitVars, bins);
    }
  }
}
