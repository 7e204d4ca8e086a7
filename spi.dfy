/**
 * The byte arithmetic of SPI.py: the three-byte write frame of
 * `keti_spi_write`, the command byte and receive buffer of `read_register`,
 * and the hex parsing of `write_register`. The Cheetah adapter calls that
 * move these bytes are not part of this model.
 */
module Spi {
  import opened Wrappers
  import opened Util

  type byte = x: int | 0 <= x < 256

  /** `keti_spi_write`'s split of a word: `(w >> 8, w & 0b11111111)`. */
  function SplitWord(w: nat): (nat, byte)
  {
    (w / 256, w % 256)
  }

  /** For a 16-bit word both halves are bytes and they recombine to the word. */
  lemma SplitWordSpec(w: nat)
    requires w < 65536
    ensures SplitWord(w).0 < 256
    ensures SplitWord(w).0 * 256 + SplitWord(w).1 == w
  {
  }

  /**
   * The frame `keti_spi_write` queues: each of address, high and low part
   * masked with `& 0xff`. `w >> 8` is floor division by 256 and `& 0xff`
   * the remainder modulo 256, negative `w` included, which is what `/` and
   * `%` by a positive divisor compute here.
   */
  function WriteFrame(address: int, w: int): seq<byte>
  {
    [address % 256, (w / 256) % 256, w % 256]
  }

  /**
   * The frame is three bytes: the address modulo 256, then the word's
   * high and low bytes. A word above 16 bits loses its upper bits.
   */
  lemma WriteFrameSpec(address: int, w: int)
    ensures |WriteFrame(address, w)| == 3
    ensures 0 <= address < 256 ==> WriteFrame(address, w)[0] == address
    ensures WriteFrame(address, w)[1] as int * 256 + WriteFrame(address, w)[2] == w % 65536
  {
    var hi, lo := w / 256, w % 256;
    var top, mid := hi / 256, hi % 256;
    assert w == hi * 256 + lo;
    assert hi == top * 256 + mid;
    ModOfSplit(w, top, mid * 256 + lo);
  }

  lemma ModOfSplit(w: int, q: int, r: nat)
    requires w == q * 65536 + r && r < 65536
    ensures w % 65536 == r
  {
  }

  /** `keti_spi_write`: fills a fresh three-byte array with the frame, index by index. */
  method KetiSpiWrite(writeAddress: int, writeData: int) returns (dataOut: array<byte>)
    ensures fresh(dataOut)
    ensures dataOut[..] == WriteFrame(writeAddress, writeData)
  {
    var data1 := writeData / 256;
    var data0 := writeData % 256;
    dataOut := new byte[3](_ => 0);
    dataOut[0] := writeAddress % 256;
    dataOut[1] := data1 % 256;
    dataOut[2] := data0;
  }

  /** `read_register`'s command byte: `(128 + address) & 0xff`. */
  function ReadCommand(address: int): byte
  {
    (128 + address) % 256
  }

  /** For addresses below 128 the command byte is the address with its top bit set. */
  lemma ReadCommandSpec(address: int)
    requires 0 <= address < 128
    ensures ReadCommand(address) >= 128
    ensures ReadCommand(address) - 128 == address
  {
  }

  /**
   * The buffers `read_register` shifts: one command byte out, then a
   * zero-filled receive buffer of two bytes per 16-bit word.
   */
  method ReadRegisterBuffers(readAddress: int, readData: nat) returns (mosi: array<byte>, miso: array<byte>)
    ensures fresh(mosi) && fresh(miso)
    ensures mosi[..] == [ReadCommand(readAddress)]
    ensures miso.Length == 2 * readData
    ensures forall i :: 0 <= i < miso.Length ==> miso[i] == 0
  {
    var cmd := 128 + readAddress;
    mosi := new byte[1](_ => 0);
    mosi[0] := cmd % 256;
    miso := new byte[readData * 2](_ => 0);
  }

  /**
   * `write_register`: `int(hex_str, 16)` and then the `keti_spi_write`
   * frame; `None` where `int` raises.
   */
  function WriteRegisterFrame(address: int, hexStr: string): Option<seq<byte>>
  {
    match PyInt(hexStr, 16)
    case None => None
    case Some(data) => Some(WriteFrame(address, data))
  }

  /**
   * `write_register`: parse the hex text and send it through
   * `keti_spi_write`. A frame goes out exactly when `int(hex_str, 16)`
   * accepts the text, and it carries the address and the parsed number
   * modulo 65536, a negative number as its two's complement.
   */
  method WriteRegister(address: int, hexStr: string) returns (frame: Option<seq<byte>>)
    ensures frame == WriteRegisterFrame(address, hexStr)
    ensures frame.Some? <==> PyInt(hexStr, 16).Some?
    ensures frame.Some? ==> |frame.value| == 3 && frame.value[0] == address % 256
    ensures frame.Some? ==> frame.value[1] as int * 256 + frame.value[2] == PyInt(hexStr, 16).value % 65536
  {
    var data := PyInt(hexStr, 16);
    if data.Some? {
      var out := KetiSpiWrite(address, data.value);
      frame := Some(out[..]);
      WriteFrameSpec(address, data.value);
    } else {
      frame := None;
    }
  }

  /**
   * The texts `int(hex_str, 16)` accepts besides four plain digits reach
   * the device too: surrounding white space, a `0x` prefix and an
   * underscore between digits all send the frame of 0x12AB, and the
   * `"-1719"` that a Ki of -1 produces sends 0x10000 - 0x1719 = 0xE8E7.
   */
  lemma WriteRegisterLenient()
    ensures WriteRegisterFrame(0, " 12AB\n") == Some([0, 0x12, 0xAB])
    ensures WriteRegisterFrame(0, "0x12AB") == Some([0, 0x12, 0xAB])
    ensures WriteRegisterFrame(0, "12_AB") == Some([0, 0x12, 0xAB])
    ensures WriteRegisterFrame(0, "-1719") == Some([0, 0xE8, 0xE7])
  {
    Spaced12AB();
    Prefixed12AB();
    Grouped12AB();
    Negative1719();
  }

  lemma Spaced12AB()
    ensures WriteRegisterFrame(0, " 12AB\n") == Some([0, 0x12, 0xAB])
  {
    var w1, t, w2 := " ", "12AB", "\n";
    assert w1 + t + w2 == " 12AB\n";
    HexDigits12AB();
    PyIntDigits(t, 16);
    assert AllSpaces(w1) && AllSpaces(w2);
    PyIntSpaces(w1, t, w2, 16);
    FrameOf12AB(w1 + t + w2);
  }

  lemma Prefixed12AB()
    ensures WriteRegisterFrame(0, "0x12AB") == Some([0, 0x12, 0xAB])
  {
    var t := ['0', 'x'] + "12AB";
    assert t == "0x12AB";
    HexDigits12AB();
    PyIntPrefixed('x', "12AB", 16);
    FrameOf12AB(t);
  }

  lemma FrameOf12AB(s: string)
    requires PyInt(s, 16) == Some(0x12AB)
    ensures WriteRegisterFrame(0, s) == Some([0, 0x12, 0xAB])
  {
  }

  lemma Grouped12AB()
    ensures WriteRegisterFrame(0, "12_AB") == Some([0, 0x12, 0xAB])
  {
    var x, y := "12", "AB";
    assert x + "_" + y == "12_AB";
    assert x + y == "12AB";
    HexDigits12AB();
    assert IsDigits(x, 16) && IsDigits(y, 16);
    PyIntUnderscore(x, y, 16);
    FrameOf12AB(x + "_" + y);
  }

  lemma Negative1719()
    ensures WriteRegisterFrame(0, "-1719") == Some([0, 0xE8, 0xE7])
  {
    ParseMinus1719();
    FrameOfMinus1719("-1719");
  }

  lemma ParseMinus1719()
    ensures PyInt("-1719", 16) == Some(-0x1719)
  {
    var t := "1719";
    assert "-" + t == "-1719";
    HexDigits1719();
    PyIntDigits(t, 16);
    PyIntSigned(t, 16, 0x1719);
  }

  lemma FrameOfMinus1719(h: string)
    requires PyInt(h, 16) == Some(-0x1719)
    ensures WriteRegisterFrame(0, h) == Some([0, 0xE8, 0xE7])
  {
  }

  lemma HexDigits12AB()
    ensures IsDigits("12AB", 16) && ValueOf("12AB", 16) == 0x12AB
  {
    assert "12AB"[..3] == "12A" && "12A"[..2] == "12" && "12"[..1] == "1" && "1"[..0] == [];
  }

  lemma HexDigits1719()
    ensures IsDigits("1719", 16) && ValueOf("1719", 16) == 0x1719
  {
    assert "1719"[..3] == "171" && "171"[..2] == "17" && "17"[..1] == "1" && "1"[..0] == [];
  }

  /** A four-digit hex value is framed whole: its high and low bytes give back its value. */
  lemma WriteRegisterFrameSpec(address: int, hexStr: string)
    requires |hexStr| == 4 && IsDigits(hexStr, 16)
    ensures WriteRegisterFrame(address, hexStr).Some?
    ensures |WriteRegisterFrame(address, hexStr).value| == 3
    ensures 0 <= address < 256 ==> WriteRegisterFrame(address, hexStr).value[0] == address
    ensures WriteRegisterFrame(address, hexStr).value[1] as int * 256 + WriteRegisterFrame(address, hexStr).value[2]
            == ValueOf(hexStr, 16)
  {
    PyIntDigits(hexStr, 16);
    ValueOfBound(hexStr, 16);
    PowValues();
    WriteFrameSpec(address, ValueOf(hexStr, 16));
  }

  /** `f"{a[i]:02X}{a[i + 1]:02X}"`: two received bytes as one four-digit hex word. */
  function WordHex(hi: byte, lo: byte): string
  {
    Format(hi, 16, 2) + Format(lo, 16, 2)
  }

  lemma ValueOfAppendTwo(s: string, t: string)
    requires IsDigits(s, 16) && IsDigits(t, 16) && |t| == 2
    ensures IsDigits(s + t, 16)
    ensures ValueOf(s + t, 16) == ValueOf(s, 16) * 256 + ValueOf(t, 16)
  {
    var u := s + t;
    var v := s + [t[0]];
    assert u[..|u| - 1] == v;
    assert v[..|v| - 1] == s;
    assert ValueOf(v, 16) == ValueOf(s, 16) * 16 + DigitValue(t[0]);
    assert ValueOf(u, 16) == ValueOf(v, 16) * 16 + DigitValue(t[1]);
    var t0 := t[..|t| - 1];
    assert t0 == [t[0]] && t0[..|t0| - 1] == [];
    assert ValueOf(t0, 16) == DigitValue(t[0]);
    assert ValueOf(t, 16) == DigitValue(t[0]) * 16 + DigitValue(t[1]);
  }

  /** The word text is four upper-case hex digits worth `hi * 256 + lo`. */
  lemma WordHexSpec(hi: byte, lo: byte)
    ensures |WordHex(hi, lo)| == 4 && IsUpperHex(WordHex(hi, lo))
    ensures IsDigits(WordHex(hi, lo), 16)
    ensures ValueOf(WordHex(hi, lo), 16) == hi as int * 256 + lo
  {
    PowValues();
    FormatLength(hi, 16, 2);
    FormatLength(lo, 16, 2);
    FormatValue(hi, 16, 2);
    FormatValue(lo, 16, 2);
    ValueOfAppendTwo(Format(hi, 16, 2), Format(lo, 16, 2));
  }

  /**
   * `hex4_to_bin16(f"{a[i]:02X}{a[i+1]:02X}")`, the readback decoding in
   * measurement.py, is the sixteen-bit text of `hi * 256 + lo`.
   */
  lemma ReadbackBits(hi: byte, lo: byte)
    ensures Hex4ToBin16(WordHex(hi, lo)) == Some(Format(hi as int * 256 + lo, 2, 16))
    ensures IsBits16(Format(hi as int * 256 + lo, 2, 16))
    ensures ValueOf(Format(hi as int * 256 + lo, 2, 16), 2) == hi as int * 256 + lo
  {
    WordHexSpec(hi, lo);
    PyIntDigits(WordHex(hi, lo), 16);
    Hex4ToBin16Spec(WordHex(hi, lo));
  }
}
