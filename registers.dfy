/**
 * The 16-bit register codec shared by main.py and measurement.py. A
 * register is held as a 16-character '0'/'1' string whose character `i`
 * is bit `15 - i`; single-bit mode settings are spliced at `15 - bit`, and
 * the loop-filter fields are slices of the string: Ki at 0..4 and Kp at
 * 4..8 of register 0, the initial DCO code at 6..16 of register 1.
 */
module Registers {
  import opened Wrappers
  import opened Util
  import opened Spi

  /** The base patterns of `reg_settings` (main.py:23-32) and measurement.py:174, 187. */
  const Reg0Template: string := "0111011100011001"
  const Reg1Template: string := "0000000010000111"
  const Reg15Template: string := "0000000000000100"

  /** The value of a radio-button setting: 0 or 1. */
  type Bit = x: int | 0 <= x <= 1

  /** A slice `[lo:hi]` of the register string. */
  datatype Field = Field(lo: nat, hi: nat)

  const KiField: Field := Field(0, 4)
  const KpField: Field := Field(4, 8)
  const DcoField: Field := Field(6, 16)

  predicate ValidField(f: Field) { f.lo < f.hi <= 16 }

  function Width(f: Field): nat
    requires ValidField(f)
  {
    f.hi - f.lo
  }

  predicate InField(i: int, f: Field) { f.lo <= i < f.hi }

  /** `str(v)` for a bit. */
  function BitChar(v: Bit): char
  {
    if v == 1 then '1' else '0'
  }

  /** `int(bin_val[15 - bit])` */
  function GetBit(binary: string, bit: nat): Bit
    requires |binary| == 16 && bit < 16
  {
    if binary[15 - bit] == '1' then 1 else 0
  }

  /** `int("".join(binary[lo:hi]), 2)`: the unsigned value of a field. */
  function FieldValue(binary: string, f: Field): nat
    requires IsBits16(binary) && ValidField(f)
  {
    Bits16AreDigits(binary);
    ValueOf(binary[f.lo..f.hi], 2)
  }

  predicate BitIndices(bits: map<int, Bit>)
  {
    forall b :: b in bits ==> 0 <= b < 16
  }

  /**
   * The pattern after `binary[15 - bit] = str(var.get())` has run for the
   * configured bits among `0 .. n - 1`, in ascending order (the order
   * `reg_settings` lists them).
   */
  function SetBits(template: string, bits: map<int, Bit>, n: nat): (r: string)
    requires |template| == 16 && BitIndices(bits) && n <= 16
    ensures |r| == 16
  {
    if n == 0 then template
    else
      var s := SetBits(template, bits, n - 1);
      if n - 1 in bits then s[15 - (n - 1) := BitChar(bits[n - 1])] else s
  }

  /** The register pattern once every configured bit has been written. */
  function ApplyBits(template: string, bits: map<int, Bit>): (r: string)
    requires |template| == 16 && BitIndices(bits)
    ensures |r| == 16
  {
    SetBits(template, bits, 16)
  }

  lemma {:induction false} SetBitsSpec(template: string, bits: map<int, Bit>, n: nat)
    requires |template| == 16 && BitIndices(bits) && n <= 16
    ensures forall b :: b in bits && b < n ==> SetBits(template, bits, n)[15 - b] == BitChar(bits[b])
    ensures forall i :: 0 <= i < 16 && (15 - i !in bits || 15 - i >= n) ==> SetBits(template, bits, n)[i] == template[i]
  {
    if n > 0 {
      SetBitsSpec(template, bits, n - 1);
    }
  }

  /**
   * Each configured bit lands at string position `15 - bit`; every other
   * position keeps the template's character.
   */
  lemma ApplyBitsSpec(template: string, bits: map<int, Bit>)
    requires |template| == 16 && BitIndices(bits)
    ensures forall b :: b in bits ==> ApplyBits(template, bits)[15 - b] == BitChar(bits[b])
    ensures forall i :: 0 <= i < 16 && 15 - i !in bits ==> ApplyBits(template, bits)[i] == template[i]
  {
    SetBitsSpec(template, bits, 16);
  }

  lemma ApplyBitsBits(template: string, bits: map<int, Bit>)
    requires IsBits16(template) && BitIndices(bits)
    ensures IsBits16(ApplyBits(template, bits))
    ensures forall b :: b in bits ==> GetBit(ApplyBits(template, bits), b) == bits[b]
  {
    ApplyBitsSpec(template, bits);
  }

  /**
   * The loop `for bit, var in bit_settings.items(): binary[15 - bit] = str(var.get())`
   * of `write_all_registers` (main.py:225-227) and measurement.py:189-190.
   * The dictionary's keys are distinct bit numbers, so visiting them in
   * ascending order gives the same pattern as any other order.
   */
  method ApplyBitSettings(template: string, bits: map<int, Bit>) returns (binary: string)
    requires |template| == 16 && BitIndices(bits)
    ensures binary == ApplyBits(template, bits)
  {
    binary := template;
    for bit := 0 to 16
      invariant binary == SetBits(template, bits, bit)
    {
      if bit in bits {
        binary := binary[15 - bit := BitChar(bits[bit])];
      }
    }
  }

  // ---------------------------------------------------------------------
  // Multi-bit fields
  // ---------------------------------------------------------------------

  /**
   * `binary[lo:hi] = list(f"{v:0{w}b}")` exactly as Python runs it: the
   * slice is replaced by the formatted text, which is longer than the
   * slice when `v` does not fit, so the register string grows, and which
   * starts with a minus sign when `v` is negative.
   */
  function SpliceAsWritten(binary: string, f: Field, v: int): string
    requires f.lo <= f.hi <= |binary|
  {
    binary[..f.lo] + DecToBinN(v, f.hi - f.lo) + binary[f.hi..]
  }

  datatype EncodeError = OutOfRange(field: Field, value: int)

  /**
   * The range-checked splice: a value that does not fit the field is an
   * `EncodeError`, and the register is not touched.
   */
  function EncodeField(binary: string, f: Field, v: int): (r: Result<string, EncodeError>)
    requires |binary| == 16 && ValidField(f)
    ensures r.Ok? ==> |r.value| == 16
  {
    if 0 <= v < Pow(2, Width(f)) then
      Ok(binary[..f.lo] + FixedDigits(v, 2, Width(f)) + binary[f.hi..])
    else
      Err(OutOfRange(f, v))
  }

  /**
   * The range check rejects exactly the values that do not fit; an
   * accepted value is what the field then holds, and no character outside
   * the field changes.
   */
  lemma EncodeFieldSpec(binary: string, f: Field, v: int)
    requires |binary| == 16 && ValidField(f)
    ensures var r := EncodeField(binary, f, v);
      && (r.Ok? <==> 0 <= v < Pow(2, Width(f)))
      && (r.Ok? ==> r.value == SpliceAsWritten(binary, f, v))
      && (r.Ok? ==> forall i :: 0 <= i < 16 && !InField(i, f) ==> r.value[i] == binary[i])
      && (r.Ok? && IsBits16(binary) ==> IsBits16(r.value) && FieldValue(r.value, f) == v)
      && (r.Err? ==> r.error == OutOfRange(f, v))
  {
    if 0 <= v < Pow(2, Width(f)) {
      NumDigitsAtMost(v, 2, Width(f));
      SpliceFits(binary, f, v);
    }
  }

  /**
   * An in-range splice keeps sixteen characters and touches nothing
   * outside the field; on a bit string it keeps bits and holds the value.
   */
  lemma SpliceFits(binary: string, f: Field, v: nat)
    requires |binary| == 16 && ValidField(f) && v < Pow(2, Width(f))
    ensures |SpliceAsWritten(binary, f, v)| == 16
    ensures SpliceAsWritten(binary, f, v)[f.lo..f.hi] == Format(v, 2, Width(f))
    ensures forall i :: 0 <= i < 16 && !InField(i, f) ==> SpliceAsWritten(binary, f, v)[i] == binary[i]
    ensures IsBits16(binary) ==> IsBits16(SpliceAsWritten(binary, f, v)) && FieldValue(SpliceAsWritten(binary, f, v), f) == v
  {
    var t := Format(v, 2, Width(f));
    FormatLength(v, 2, Width(f));
    FormatValue(v, 2, Width(f));
    var r := SpliceAsWritten(binary, f, v);
    assert r[f.lo..f.hi] == t;
    if IsBits16(binary) {
      forall i | 0 <= i < 16 ensures r[i] == '0' || r[i] == '1' {
        if InField(i, f) {
          assert r[i] == t[i - f.lo];
          assert IsDigit(t[i - f.lo], 2) && IsUpperHexChar(t[i - f.lo]);
        }
      }
      Bits16AreDigits(r);
    }
  }

  /** A field splice leaves the other fields' values alone. */
  lemma EncodeFieldKeepsOthers(binary: string, f: Field, g: Field, v: int)
    requires IsBits16(binary) && ValidField(f) && ValidField(g)
    requires g.hi <= f.lo || f.hi <= g.lo
    requires EncodeField(binary, f, v).Ok?
    ensures IsBits16(EncodeField(binary, f, v).value)
    ensures FieldValue(EncodeField(binary, f, v).value, g) == FieldValue(binary, g)
  {
    EncodeFieldSpec(binary, f, v);
    var r := EncodeField(binary, f, v).value;
    assert r[g.lo..g.hi] == binary[g.lo..g.hi];
  }

  // ---------------------------------------------------------------------
  // Whole registers, as `write_all_registers` builds them
  // ---------------------------------------------------------------------

  /** The base pattern of each register of `reg_settings`. */
  function Template(addr: int): string
  {
    if addr == 0 then Reg0Template else if addr == 1 then Reg1Template else Reg15Template
  }

  lemma TemplatesAreBits(addr: int)
    ensures IsBits16(Template(addr))
  {
  }

  /**
   * The register text `write_all_registers` produces for `addr`: the
   * template with the bit settings, then for register 0 Ki and Kp and for
   * register 1 the initial DCO code, each range-checked (main.py:224-236).
   */
  function EncodeRegister(addr: int, bits: map<int, Bit>, kp: int, ki: int, dco: int): Result<string, EncodeError>
    requires BitIndices(bits)
  {
    var binary := ApplyBits(Template(addr), bits);
    if addr == 0 then
      match EncodeField(binary, KiField, ki)
      case Err(e) => Err(e)
      case Ok(withKi) => EncodeField(withKi, KpField, kp)
    else if addr == 1 then
      EncodeField(binary, DcoField, dco)
    else
      Ok(binary)
  }

  /** A register that encodes is a sixteen-bit text. */
  lemma EncodeRegisterBits(addr: int, bits: map<int, Bit>, kp: int, ki: int, dco: int)
    requires BitIndices(bits)
    ensures EncodeRegister(addr, bits, kp, ki, dco).Ok? ==> IsBits16(EncodeRegister(addr, bits, kp, ki, dco).value)
  {
    TemplatesAreBits(addr);
    var binary := ApplyBits(Template(addr), bits);
    ApplyBitsBits(Template(addr), bits);
    EncodeFieldSpec(binary, KiField, ki);
    EncodeFieldSpec(binary, DcoField, dco);
    if EncodeField(binary, KiField, ki).Ok? {
      EncodeFieldSpec(EncodeField(binary, KiField, ki).value, KpField, kp);
    }
  }

  /** Bit settings that avoid the loop-filter fields of their register. */
  predicate BitsOutsideFields(addr: int, bits: map<int, Bit>)
  {
    && BitIndices(bits)
    && (addr == 0 ==> forall b :: b in bits ==> !InField(15 - b, KiField) && !InField(15 - b, KpField))
    && (addr == 1 ==> forall b :: b in bits ==> !InField(15 - b, DcoField))
  }

  /** A position that neither a bit setting nor a field of register `addr` writes. */
  predicate UntouchedPosition(addr: int, bits: map<int, Bit>, i: int)
  {
    && 0 <= i < 16 && 15 - i !in bits
    && (addr == 0 ==> !InField(i, KiField) && !InField(i, KpField))
    && (addr == 1 ==> !InField(i, DcoField))
  }

  /**
   * Encoding succeeds exactly for in-range field values, and decoding the
   * result recovers Ki, Kp, the initial DCO code and every bit setting;
   * every other position keeps the template's character.
   */
  lemma EncodeRegisterDecodes(addr: int, bits: map<int, Bit>, kp: int, ki: int, dco: int)
    requires BitsOutsideFields(addr, bits)
    ensures var r := EncodeRegister(addr, bits, kp, ki, dco);
      && (r.Ok? <==> (addr == 0 ==> 0 <= ki < 16 && 0 <= kp < 16) && (addr == 1 ==> 0 <= dco < 1024))
      && (r.Ok? ==> IsBits16(r.value))
      && (r.Ok? && addr == 0 ==> FieldValue(r.value, KiField) == ki && FieldValue(r.value, KpField) == kp)
      && (r.Ok? && addr == 1 ==> FieldValue(r.value, DcoField) == dco)
      && (r.Ok? ==> forall b :: b in bits ==> GetBit(r.value, b) == bits[b])
      && (r.Ok? ==> forall i :: UntouchedPosition(addr, bits, i) ==> r.value[i] == Template(addr)[i])
  {
    PowValues();
    TemplatesAreBits(addr);
    var binary := ApplyBits(Template(addr), bits);
    ApplyBitsBits(Template(addr), bits);
    ApplyBitsSpec(Template(addr), bits);
    EncodeRegisterOutsideFields(addr, bits, kp, ki, dco);
    if addr == 0 {
      EncodeFieldSpec(binary, KiField, ki);
      var e1 := EncodeField(binary, KiField, ki);
      if e1.Ok? {
        EncodeFieldSpec(e1.value, KpField, kp);
        if EncodeField(e1.value, KpField, kp).Ok? {
          EncodeFieldKeepsOthers(e1.value, KpField, KiField, kp);
        }
      }
    } else if addr == 1 {
      EncodeFieldSpec(binary, DcoField, dco);
    }
  }

  /** Position `i` of register `addr` lies in none of its fields. */
  predicate OutsideFields(addr: int, i: int)
  {
    && 0 <= i < 16
    && (addr == 0 ==> !InField(i, KiField) && !InField(i, KpField))
    && (addr == 1 ==> !InField(i, DcoField))
  }

  /** Outside the register's fields, the encoded word is the template with the bit settings. */
  lemma EncodeRegisterOutsideFields(addr: int, bits: map<int, Bit>, kp: int, ki: int, dco: int)
    requires BitIndices(bits)
    ensures var r := EncodeRegister(addr, bits, kp, ki, dco);
      r.Ok? ==> |r.value| == 16 && forall i :: OutsideFields(addr, i) ==> r.value[i] == ApplyBits(Template(addr), bits)[i]
  {
    TemplatesAreBits(addr);
    var binary := ApplyBits(Template(addr), bits);
    if addr == 0 {
      EncodeFieldSpec(binary, KiField, ki);
      var e1 := EncodeField(binary, KiField, ki);
      if e1.Ok? {
        EncodeFieldSpec(e1.value, KpField, kp);
      }
    } else if addr == 1 {
      EncodeFieldSpec(binary, DcoField, dco);
    }
  }

  /** The hex word written for a register and the 16-bit text read back from that word. */
  function RegisterHex(w: string): string
    requires IsBits16(w)
  {
    Bin16ToHex4Spec(w);
    Bin16ToHex4(w).value
  }

  /**
   * The sixteen-bit text of a word read back as two bytes: what
   * `f"{int(val_hex, 16):016b}"` (main.py:273) and
   * `hex4_to_bin16(f"{hi:02X}{lo:02X}")` (measurement.py:290 and 305) give.
   */
  function ReadBits(hi: byte, lo: byte): (r: string)
    ensures IsBits16(r) && IsDigits(r, 2)
    ensures ValueOf(r, 2) == hi as int * 256 + lo
  {
    var v := hi as int * 256 + lo;
    PowValues();
    FixedDigitsValue(v, 2, 16);
    BinaryDigitsAreBits(FixedDigits(v, 2, 16));
    FixedDigits(v, 2, 16)
  }

  /** Both ways of decoding the readback give that text. */
  lemma ReadBitsDecodes(hi: byte, lo: byte)
    ensures Hex4ToBin16(WordHex(hi, lo)) == Some(ReadBits(hi, lo))
    ensures Format(hi as int * 256 + lo, 2, 16) == ReadBits(hi, lo)
  {
    var v := hi as int * 256 + lo;
    PowValues();
    NumDigitsAtMost(v, 2, 16);
    ReadbackBits(hi, lo);
  }

  /**
   * The frame a register text is sent as: the address, then the high and
   * low byte of the word the text denotes in binary.
   */
  function RegisterFrame(addr: int, w: string): (frame: seq<byte>)
    requires IsBits16(w)
  {
    WriteFrame(addr, ValueOf(w, 2))
  }

  /** Two sixteen-bit texts that denote the same number are the same text. */
  lemma Bits16Unique(r: string, w: string)
    requires IsBits16(r) && IsBits16(w)
    requires ValueOf(r, 2) == ValueOf(w, 2)
    ensures r == w
  {
    Bits16AreDigits(r);
    Bits16AreDigits(w);
    FixedDigitsOfValue(r, 2);
    FixedDigitsOfValue(w, 2);
  }

  /** `write_register(addr, bin16_to_hex4(w))` sends exactly that frame. */
  lemma RegisterFrameSent(addr: int, w: string)
    requires IsBits16(w)
    ensures WriteRegisterFrame(addr, RegisterHex(w)) == Some(RegisterFrame(addr, w))
  {
    Bin16ToHex4Spec(w);
    PyIntDigits(RegisterHex(w), 16);
  }

  /**
   * The frame's first byte is the address and its two data bytes read
   * back through `hex4_to_bin16` as the register text unchanged.
   */
  lemma RegisterFrameSpec(addr: int, w: string)
    requires IsBits16(w)
    ensures |RegisterFrame(addr, w)| == 3
    ensures 0 <= addr < 256 ==> RegisterFrame(addr, w)[0] == addr
    ensures ReadBits(RegisterFrame(addr, w)[1], RegisterFrame(addr, w)[2]) == w
  {
    Bits16AreDigits(w);
    var v := ValueOf(w, 2);
    assert v < 65536 by {
      ValueOfBound(w, 2);
      PowValues();
    }
    WriteFrameSpec(addr, v);
    var frame := RegisterFrame(addr, w);
    Bits16Unique(ReadBits(frame[1], frame[2]), w);
  }

  /** The single-bit settings of `reg_settings` with their initial values (main.py:23-32). */
  function DefaultBits(addr: int): map<int, Bit>
  {
    if addr == 0 then map[4 := 1, 6 := 0]
    else if addr == 15 then map[0 := 0, 1 := 0, 10 := 0, 11 := 0, 12 := 0, 13 := 0]
    else map[]
  }

  /** The bit indices of `reg_settings` lie in 0..15 and clear of each register's fields. */
  lemma DefaultBitsOutsideFields(addr: int)
    ensures BitsOutsideFields(addr, DefaultBits(addr))
  {
  }

  // ---------------------------------------------------------------------
  // The unchecked splice of the source
  // ---------------------------------------------------------------------

  lemma NibbleValues()
    ensures IsDigits("0000", 2) && ValueOf("0000", 2) == 0
    ensures IsDigits("0111", 2) && ValueOf("0111", 2) == 7
    ensures IsDigits("0001", 2) && ValueOf("0001", 2) == 1
    ensures IsDigits("1001", 2) && ValueOf("1001", 2) == 9
  {
    assert Format(0, 2, 4) == "0000" && Format(7, 2, 4) == "0111";
    assert Format(1, 2, 4) == "0001" && Format(9, 2, 4) == "1001";
    FormatValue(0, 2, 4);
    FormatValue(7, 2, 4);
    FormatValue(1, 2, 4);
    FormatValue(9, 2, 4);
  }

  lemma Word0719Value()
    ensures IsDigits("0000011100011001", 2) && ValueOf("0000011100011001", 2) == 0x0719
  {
    var w := "0000011100011001";
    assert w == "0000" + "0111" + "0001" + "1001";
    NibbleValues();
    ValueOfAppend("0000", "0111", 2);
    ValueOfAppend("0000" + "0111", "0001", 2);
    ValueOfAppend("0000" + "0111" + "0001", "1001", 2);
    PowValues();
  }

  lemma Format0719()
    ensures Format(0x0719, 2, 16) == "0000011100011001"
  {
    var w := "0000011100011001";
    Word0719Value();
    FixedDigitsOfValue(w, 2);
    assert Upper(w) == w;
    PowValues();
    NumDigitsAtMost(0x0719, 2, 16);
  }

  /** The device word 0x0719: Ki 0, Kp 7, the template's low byte. */
  lemma Word0719()
    ensures IsBits16("0000011100011001")
    ensures FieldValue("0000011100011001", KiField) == 0
    ensures FieldValue("0000011100011001", KpField) == 7
  {
    var w := "0000011100011001";
    assert w[0..4] == "0000" && w[4..8] == "0111";
    NibbleValues();
  }

  lemma HexValue()
    ensures IsDigits("10719", 16) && ValueOf("10719", 16) == 0x10719
  {
    assert Format(1, 16, 1) == "1" && Format(7, 16, 2) == "07" && Format(0x19, 16, 2) == "19";
    FormatValue(1, 16, 1);
    FormatValue(7, 16, 2);
    FormatValue(0x19, 16, 2);
    assert "10719" == "1" + "07" + "19";
    ValueOfAppend("1", "07", 16);
    ValueOfAppend("1" + "07", "19", 16);
    PowValues();
  }

  lemma SmallFormats()
    ensures Format(7, 2, 4) == "0111"
    ensures Format(16, 2, 4) == "10000"
  {
  }

  /** Kp = 7 spliced into the register 0 template leaves it as it was. */
  lemma Kp7Reg0()
    ensures SpliceAsWritten(Reg0Template, KpField, 7) == Reg0Template
  {
    SmallFormats();
    assert Reg0Template[4..8] == "0111";
  }

  /** Ki = 16 spliced into the register 0 template lengthens it to seventeen characters. */
  lemma Ki16Splice()
    ensures SpliceAsWritten(Reg0Template, KiField, 16) == "1" + "0000011100011001"
  {
    SmallFormats();
    assert SpliceAsWritten(Reg0Template, KiField, 16) == "10000" + Reg0Template[4..];
  }

  /** Register 0 as written for Kp = 7, Ki = 16: seventeen characters worth 0x10719. */
  lemma Ki16Register()
    ensures var reg := SpliceAsWritten(SpliceAsWritten(Reg0Template, KpField, 7), KiField, 16);
      reg == "1" + "0000011100011001" && IsDigits(reg, 2) && ValueOf(reg, 2) == 0x10719
  {
    Kp7Reg0();
    Ki16Splice();
    Word0719Value();
    ValueOfAppend("1", "0000011100011001", 2);
    PowValues();
  }

  lemma Ki16Hex()
    ensures Bin16ToHex4("1" + "0000011100011001") == Some("10719")
  {
    Ki16Register();
    PyIntDigits("1" + "0000011100011001", 2);
    Hex10719("1" + "0000011100011001");
  }

  /** Any binary text worth 0x10719 is printed as `10719`. */
  lemma Hex10719(s: string)
    requires PyInt(s, 2) == Some(0x10719)
    ensures Bin16ToHex4(s) == Some("10719")
  {
    HexValue();
    FormatOfValue("10719", 16, 4);
    assert Upper("10719") == "10719";
  }

  lemma Frame10719()
    ensures WriteRegisterFrame(0, "10719") == Some([0, 0x07, 0x19])
  {
    Parse10719();
    FrameOf10719("10719");
  }

  lemma Parse10719()
    ensures PyInt("10719", 16) == Some(0x10719)
  {
    HexValue();
    PyIntDigits("10719", 16);
  }

  lemma FrameOf10719(h: string)
    requires PyInt(h, 16) == Some(0x10719)
    ensures WriteRegisterFrame(0, h) == Some([0, 0x07, 0x19])
  {
  }

  /**
   * As written, a Ki of 16 spliced after Kp (measurement.py:295-299) makes
   * register 0 seventeen characters long; its hex text has five digits,
   * and the SPI frame keeps only the low sixteen bits, so the device
   * receives Ki = 0 with the requested Kp.
   */
  lemma Ki16ProgramsKiZero()
    ensures var reg := SpliceAsWritten(SpliceAsWritten(Reg0Template, KpField, 7), KiField, 16);
      && |reg| == 17
      && Bin16ToHex4(reg) == Some("10719")
      && WriteRegisterFrame(0, "10719") == Some([0, 0x07, 0x19])
      && Format(0x0719, 2, 16) == "0000011100011001" && IsBits16("0000011100011001")
      && FieldValue("0000011100011001", KiField) == 0
      && FieldValue("0000011100011001", KpField) == 7
  {
    Ki16Register();
    Ki16Hex();
    Frame10719();
    Format0719();
    Word0719();
  }

  lemma MoreNibbles()
    ensures IsDigits("1111", 2) && ValueOf("1111", 2) == 15
    ensures IsDigits("1110", 2) && ValueOf("1110", 2) == 14
    ensures IsDigits("1000", 2) && ValueOf("1000", 2) == 8
    ensures IsDigits("001", 2) && ValueOf("001", 2) == 1
  {
    assert Format(15, 2, 4) == "1111" && Format(14, 2, 4) == "1110";
    assert Format(8, 2, 4) == "1000" && Format(1, 2, 3) == "001";
    FormatValue(15, 2, 4);
    FormatValue(14, 2, 4);
    FormatValue(8, 2, 4);
    FormatValue(1, 2, 3);
  }

  /**
   * main.py splices Ki before Kp (main.py:230-233). With Ki = 16 the
   * string has already grown by one, so Kp's `0111` lands one place to
   * the left of the Kp field and leaves a `1` behind it.
   */
  lemma Ki16ThenKp7Splice()
    ensures SpliceAsWritten(SpliceAsWritten(Reg0Template, KiField, 16), KpField, 7) == "1" + "0000111100011001"
  {
    Ki16Splice();
    SmallFormats();
    var r := "1" + "0000011100011001";
    assert SpliceAsWritten(r, KpField, 7) == r[..4] + "0111" + r[8..];
  }

  lemma Word0F19Value()
    ensures IsDigits("0000111100011001", 2) && ValueOf("0000111100011001", 2) == 0x0F19
  {
    var w := "0000111100011001";
    assert w == "0000" + "1111" + "0001" + "1001";
    NibbleValues();
    MoreNibbles();
    ValueOfAppend("0000", "1111", 2);
    ValueOfAppend("0000" + "1111", "0001", 2);
    ValueOfAppend("0000" + "1111" + "0001", "1001", 2);
    PowValues();
  }

  lemma Format0F19()
    ensures Format(0x0F19, 2, 16) == "0000111100011001"
  {
    var w := "0000111100011001";
    Word0F19Value();
    FixedDigitsOfValue(w, 2);
    assert Upper(w) == w;
    PowValues();
    NumDigitsAtMost(0x0F19, 2, 16);
  }

  /** The device word 0x0F19: Ki 0, Kp 15. */
  lemma Word0F19()
    ensures IsBits16("0000111100011001") && Format(0x0F19, 2, 16) == "0000111100011001"
    ensures FieldValue("0000111100011001", KiField) == 0
    ensures FieldValue("0000111100011001", KpField) == 15
  {
    var w := "0000111100011001";
    Format0F19();
    assert w[0..4] == "0000" && w[4..8] == "1111";
    NibbleValues();
    MoreNibbles();
  }


  lemma Hex10F19()
    ensures IsDigits("10F19", 16) && ValueOf("10F19", 16) == 0x10F19
  {
    assert Format(1, 16, 1) == "1" && Format(0x0F, 16, 2) == "0F" && Format(0x19, 16, 2) == "19";
    FormatValue(1, 16, 1);
    FormatValue(0x0F, 16, 2);
    FormatValue(0x19, 16, 2);
    assert "10F19" == "1" + "0F" + "19";
    ValueOfAppend("1", "0F", 16);
    ValueOfAppend("1" + "0F", "19", 16);
    PowValues();
  }

  /** Any binary text worth 0x10F19 is printed as `10F19`. */
  lemma Hex10F19Of(s: string)
    requires PyInt(s, 2) == Some(0x10F19)
    ensures Bin16ToHex4(s) == Some("10F19")
  {
    Hex10F19();
    FormatOfValue("10F19", 16, 4);
    assert Upper("10F19") == "10F19";
  }

  /** `10F19` is framed as 0x0F19. */
  lemma Frame10F19()
    ensures WriteRegisterFrame(0, "10F19") == Some([0, 0x0F, 0x19])
  {
    Parse10F19();
    FrameOf10F19("10F19");
  }

  lemma Parse10F19()
    ensures PyInt("10F19", 16) == Some(0x10F19)
  {
    Hex10F19();
    PyIntDigits("10F19", 16);
  }

  lemma FrameOf10F19(h: string)
    requires PyInt(h, 16) == Some(0x10F19)
    ensures WriteRegisterFrame(0, h) == Some([0, 0x0F, 0x19])
  {
  }

  /**
   * In main.py's order a Ki of 16 with a Kp of 7 gives the seventeen
   * characters `10000111100011001`, hex `10F19`; the frame keeps the low
   * sixteen bits, so the device receives Ki = 0 and Kp = 15.
   */
  lemma Ki16ProgramsKp15()
    ensures var reg := SpliceAsWritten(SpliceAsWritten(Reg0Template, KiField, 16), KpField, 7);
      && |reg| == 17
      && Bin16ToHex4(reg) == Some("10F19")
      && WriteRegisterFrame(0, "10F19") == Some([0, 0x0F, 0x19])
      && Format(0x0F19, 2, 16) == "0000111100011001" && IsBits16("0000111100011001")
      && FieldValue("0000111100011001", KiField) == 0
      && FieldValue("0000111100011001", KpField) == 15
  {
    Word0F19();
    Ki16ThenKp7Splice();
    Reg10F19();
    Hex10F19Of("1" + "0000111100011001");
    Frame10F19();
  }

  lemma Reg10F19()
    ensures PyInt("1" + "0000111100011001", 2) == Some(0x10F19)
  {
    Word0F19Value();
    ValueOfAppend("1", "0000111100011001", 2);
    PowValues();
    PyIntDigits("1" + "0000111100011001", 2);
  }

  /**
   * A Ki of -1 is formatted `-001`, which fills the Ki slice exactly, so
   * register 0 keeps sixteen characters with a minus sign in front, in
   * either splice order.
   */
  lemma KiMinusOneSplice()
    ensures SpliceAsWritten(SpliceAsWritten(Reg0Template, KpField, 7), KiField, -1) == "-" + "001011100011001"
    ensures SpliceAsWritten(SpliceAsWritten(Reg0Template, KiField, -1), KpField, 7) == "-" + "001011100011001"
  {
    Kp7Reg0();
    KiMinusOneOnTemplate();
    Kp7Keeps("-" + "001011100011001");
  }

  lemma KiMinusOneOnTemplate()
    ensures SpliceAsWritten(Reg0Template, KiField, -1) == "-" + "001011100011001"
  {
    assert DecToBinN(-1, 4) == "-" + Format(1, 2, 3);
    assert Format(1, 2, 3) == "001";
    assert Reg0Template[4..] == "011100011001";
  }

  /** Kp = 7 spliced into a text that already holds `0111` at positions 4-7 changes nothing. */
  lemma Kp7Keeps(r: string)
    requires |r| >= 8 && r[4..8] == "0111"
    ensures SpliceAsWritten(r, KpField, 7) == r
  {
    SmallFormats();
    assert r == r[..4] + r[4..8] + r[8..];
  }

  lemma Word1719Digits()
    ensures IsDigits("001011100011001", 2) && ValueOf("001011100011001", 2) == 0x1719
  {
    var w := "001011100011001";
    assert w == "001" + "0111" + "0001" + "1001";
    NibbleValues();
    MoreNibbles();
    ValueOfAppend("001", "0111", 2);
    ValueOfAppend("001" + "0111", "0001", 2);
    ValueOfAppend("001" + "0111" + "0001", "1001", 2);
    PowValues();
  }

  /** `bin16_to_hex4` of the signed text: `int(..., 2)` is -0x1719, printed `-1719`. */
  lemma KiMinusOneHex()
    ensures Bin16ToHex4("-" + "001011100011001") == Some("-1719")
  {
    var t := "001011100011001";
    Word1719Digits();
    PyIntDigits(t, 2);
    PyIntSigned(t, 2, 0x1719);
    Print1719();
  }

  lemma Print1719()
    ensures FormatInt(-0x1719, 16, 4) == "-1719"
  {
    HexDigits1719();
    FormatOfValue("1719", 16, 3);
    assert Upper("1719") == "1719";
  }

  lemma WordE8E7Value()
    ensures IsDigits("1110100011100111", 2) && ValueOf("1110100011100111", 2) == 0xE8E7
  {
    var w := "1110100011100111";
    assert w == "1110" + "1000" + "1110" + "0111";
    NibbleValues();
    MoreNibbles();
    ValueOfAppend("1110", "1000", 2);
    ValueOfAppend("1110" + "1000", "1110", 2);
    ValueOfAppend("1110" + "1000" + "1110", "0111", 2);
    PowValues();
  }

  lemma FormatE8E7()
    ensures Format(0xE8E7, 2, 16) == "1110100011100111"
  {
    var w := "1110100011100111";
    WordE8E7Value();
    FixedDigitsOfValue(w, 2);
    assert Upper(w) == w;
    PowValues();
    NumDigitsAtMost(0xE8E7, 2, 16);
  }

  /** The device word 0xE8E7: Ki 14, Kp 8. */
  lemma WordE8E7()
    ensures IsBits16("1110100011100111") && Format(0xE8E7, 2, 16) == "1110100011100111"
    ensures FieldValue("1110100011100111", KiField) == 14
    ensures FieldValue("1110100011100111", KpField) == 8
  {
    var w := "1110100011100111";
    FormatE8E7();
    assert w[0..4] == "1110" && w[4..8] == "1000";
    MoreNibbles();
  }


  /**
   * As written, a Ki of -1 is not rejected: `int(..., 2)` reads the
   * leading minus sign, `bin16_to_hex4` gives `-1719`, `int(-1719, 16)`
   * is accepted as well, and the frame carries the two's complement
   * 0xE8E7, so the device receives Ki = 14 and Kp = 8 and the write
   * reports success.
   */
  lemma KiMinusOneProgramsKi14()
    ensures var reg := SpliceAsWritten(SpliceAsWritten(Reg0Template, KpField, 7), KiField, -1);
      && reg == SpliceAsWritten(SpliceAsWritten(Reg0Template, KiField, -1), KpField, 7)
      && |reg| == 16 && reg[0] == '-'
      && Bin16ToHex4(reg) == Some("-1719")
      && WriteRegisterFrame(0, "-1719") == Some([0, 0xE8, 0xE7])
      && Format(0xE8E7, 2, 16) == "1110100011100111" && IsBits16("1110100011100111")
      && FieldValue("1110100011100111", KiField) == 14
      && FieldValue("1110100011100111", KpField) == 8
  {
    KiMinusOneSplice();
    KiMinusOneHex();
    Negative1719();
    WordE8E7();
  }

  /** Kp = 16 spliced into the register 0 template: `10000` takes the four places 4-7 and the list grows to seventeen. */
  lemma Kp16Splice()
    ensures SpliceAsWritten(Reg0Template, KpField, 16) == "0111" + "10000" + "00011001"
  {
    SmallFormats();
    assert Reg0Template[..4] == "0111" && Reg0Template[8..] == "00011001";
  }

  /** On the seventeen-character list a Kp of 15 replaces places 4-7 only; the extra character stays. */
  lemma Kp15OnLong()
    ensures SpliceAsWritten("0111" + "10000" + "00011001", KpField, 15) == "0111" + "1111" + "000011001"
  {
    var r := "0111" + "10000" + "00011001";
    assert Format(15, 2, 4) == "1111";
    assert r[..4] == "0111" && r[8..] == "000011001";
  }

  /** Ki = 7 spliced into a text that already starts with `0111` changes nothing. */
  lemma Ki7Keeps(r: string)
    requires |r| >= 4 && r[..4] == "0111"
    ensures SpliceAsWritten(r, KiField, 7) == r
  {
    SmallFormats();
    assert r == r[..4] + r[4..];
  }

  lemma WordFE19Value()
    ensures IsDigits("1111111000011001", 2) && ValueOf("1111111000011001", 2) == 0xFE19
  {
    var w := "1111111000011001";
    assert w == "1111" + "1110" + "0001" + "1001";
    NibbleValues();
    MoreNibbles();
    ValueOfAppend("1111", "1110", 2);
    ValueOfAppend("1111" + "1110", "0001", 2);
    ValueOfAppend("1111" + "1110" + "0001", "1001", 2);
    PowValues();
  }

  /** The seventeen characters with a leading `0` are worth 0xFE19 to `int(..., 2)`. */
  lemma RegFE19()
    ensures PyInt("0" + "1111111000011001", 2) == Some(0xFE19)
  {
    WordFE19Value();
    assert Format(0, 2, 1) == "0";
    FormatValue(0, 2, 1);
    ValueOfAppend("0", "1111111000011001", 2);
    PyIntDigits("0" + "1111111000011001", 2);
  }

  lemma FormatFE19()
    ensures Format(0xFE19, 2, 16) == "1111111000011001"
  {
    var w := "1111111000011001";
    WordFE19Value();
    FixedDigitsOfValue(w, 2);
    assert Upper(w) == w;
    PowValues();
    NumDigitsAtMost(0xFE19, 2, 16);
  }

  /** The device word 0xFE19: Ki 15, Kp 14. */
  lemma WordFE19()
    ensures IsBits16("1111111000011001") && Format(0xFE19, 2, 16) == "1111111000011001"
    ensures FieldValue("1111111000011001", KiField) == 15
    ensures FieldValue("1111111000011001", KpField) == 14
  {
    var w := "1111111000011001";
    FormatFE19();
    assert w[0..4] == "1111" && w[4..8] == "1110";
    MoreNibbles();
  }

  lemma HexFE19()
    ensures IsDigits("FE19", 16) && ValueOf("FE19", 16) == 0xFE19
  {
    assert Format(0xFE, 16, 2) == "FE" && Format(0x19, 16, 2) == "19";
    FormatValue(0xFE, 16, 2);
    FormatValue(0x19, 16, 2);
    assert "FE19" == "FE" + "19";
    ValueOfAppend("FE", "19", 16);
    PowValues();
  }

  /** Any binary text worth 0xFE19 is printed as `FE19`. */
  lemma HexFE19Of(s: string)
    requires PyInt(s, 2) == Some(0xFE19)
    ensures Bin16ToHex4(s) == Some("FE19")
  {
    HexFE19();
    FormatOfValue("FE19", 16, 4);
    assert Upper("FE19") == "FE19";
  }

  /** `FE19` is framed as 0xFE19. */
  lemma FrameFE19()
    ensures WriteRegisterFrame(0, "FE19") == Some([0, 0xFE, 0x19])
  {
    ParseFE19();
    FrameOfFE19("FE19");
  }

  lemma ParseFE19()
    ensures PyInt("FE19", 16) == Some(0xFE19)
  {
    HexFE19();
    PyIntDigits("FE19", 16);
  }

  lemma FrameOfFE19(h: string)
    requires PyInt(h, 16) == Some(0xFE19)
    ensures WriteRegisterFrame(0, h) == Some([0, 0xFE, 0x19])
  {
  }

  /** The splices of the run: Kp 16 and Ki 7 under one DCO value, then Kp 15 and Ki 7 under the next. */
  lemma Kp16ThenKp15Splice()
    ensures var long := SpliceAsWritten(SpliceAsWritten(Reg0Template, KpField, 16), KiField, 7);
      && long == "0111" + "10000" + "00011001"
      && SpliceAsWritten(SpliceAsWritten(long, KpField, 15), KiField, 7) == "0" + "1111111000011001"
  {
    Kp16Splice();
    Ki7Keeps("0111" + "10000" + "00011001");
    Kp15OnLong();
    Ki7Keeps("0111" + "1111" + "000011001");
    assert "0111" + "1111" + "000011001" == "0" + "1111111000011001";
  }

  /**
   * As written, once a Kp of 16 has been spliced (measurement.py:295-296)
   * register 0 stays seventeen characters long for the rest of the run,
   * since later splices replace four places with four characters. Under
   * the next DCO value a Kp of 15 with Ki 7 gives `01111111000011001`,
   * hex `FE19`, and the device receives Ki = 15 and Kp = 14.
   */
  lemma Kp16ShiftsLaterWords()
    ensures var long := SpliceAsWritten(SpliceAsWritten(Reg0Template, KpField, 16), KiField, 7);
      && |long| == 17
      && var reg := SpliceAsWritten(SpliceAsWritten(long, KpField, 15), KiField, 7);
      && |reg| == 17
      && Bin16ToHex4(reg) == Some("FE19")
      && WriteRegisterFrame(0, "FE19") == Some([0, 0xFE, 0x19])
      && Format(0xFE19, 2, 16) == "1111111000011001" && IsBits16("1111111000011001")
      && FieldValue("1111111000011001", KiField) == 15
      && FieldValue("1111111000011001", KpField) == 14
  {
    Kp16ThenKp15Splice();
    RegFE19();
    HexFE19Of("0" + "1111111000011001");
    FrameFE19();
    WordFE19();
  }

  /**
   * A negative Kp puts its minus sign at position 4, inside the digits of
   * any sixteen-bit word it is spliced into, where `int(..., 2)` rejects
   * it: `bin16_to_hex4` raises, whatever the bit settings and Ki.
   */
  lemma KpNegativeRaises(w: string, kp: int)
    requires IsBits16(w) && kp < 0
    ensures Bin16ToHex4(SpliceAsWritten(w, KpField, kp)).None?
  {
    var r := SpliceAsWritten(w, KpField, kp);
    assert DecToBinN(kp, 4) == "-" + Format(-kp, 2, 3);
    assert r[4] == '-';
    assert r[0] == w[0] && r[1] == w[1] && r[|r| - 1] == w[15];
    InnerMinusRaises(r, 4, 2);
  }

  /**
   * A negative DCO code puts its minus sign at position 6 of any
   * sixteen-bit register 1 word, inside the digits: `bin16_to_hex4`
   * raises there too.
   */
  lemma DcoNegativeRaises(w: string, dco: int)
    requires IsBits16(w) && dco < 0
    ensures Bin16ToHex4(SpliceAsWritten(w, DcoField, dco)).None?
  {
    var r := SpliceAsWritten(w, DcoField, dco);
    var t := Format(-dco, 2, 9);
    assert DecToBinN(dco, 10) == "-" + t;
    FormatValue(-dco, 2, 9);
    assert r == w[..6] + ("-" + t);
    assert r[6] == '-' && r[|r| - 1] == t[|t| - 1];
    assert r[0] == w[0] && r[1] == w[1] && IsDigit(r[|r| - 1], 2);
    InnerMinusRaises(r, 6, 2);
  }
}
