/**
 * The DS18B20 1-Wire driver: the Dallas/Maxim 1-Wire CRC-8 (polynomial
 * x^8 + x^5 + x^4 + 1, processed LSB first with the reflected constant
 * 0x8C, Maxim Application Note 27), the LSB-first byte framing of the
 * bus, the command framing (SKIP ROM or MATCH ROM and the ROM code, then
 * the command), and the CRC checks on the ROM code and the scratchpad.
 *
 * The GPIO bit timing is abstracted: the bus is the class OneWireBus,
 * which records the bits the driver writes and answers reads from the
 * bits the device will send.
 */
module Ds18b20 {
  import opened Types

  const SCRATCHPAD_SIZE: nat := 9
  const ROM_CODE_SIZE: nat := 8

  const READ_ROM: byte := 0x33
  const MATCH_ROM: byte := 0x55
  const SKIP_ROM: byte := 0xCC
  const CONVERT_T: byte := 0x44
  const READ_SCRATCHPAD: byte := 0xBE

  // ---------------------------------------------------------------------
  // CRC-8

  /** One bit of `byte_crc`: shift right, and XOR 0x8C when bit 0 of `crc ^ b` is set. */
  function CrcStep(crc: byte, b: byte): byte
  {
    if (crc ^ b) & 1 == 1 then (crc >> 1) ^ 0x8C else crc >> 1
  }

  /** `n` bits of `byte_crc`, the data byte shifted right after each. */
  function CrcSteps(crc: byte, b: byte, n: nat): byte
    decreases n
  {
    if n == 0 then crc else CrcSteps(CrcStep(crc, b), b >> 1, n - 1)
  }

  /** The data byte of `byte_crc` after `n` of its shifts. */
  function Rest(b: byte, n: nat): byte
    decreases n
  {
    if n == 0 then b else Rest(b >> 1, n - 1)
  }

  /** `byte_crc`: the CRC after one more byte. */
  function ByteCrcOf(crc: byte, b: byte): byte
  {
    CrcSteps(crc, b, 8)
  }

  /** `wire_crc`: the left fold of `byte_crc` over the bytes, from 0. */
  function Crc(s: seq<byte>): byte
  {
    if s == [] then 0 else ByteCrcOf(Crc(s[..|s| - 1]), s[|s| - 1])
  }

  /** The CRC register's own step: shift right, XOR 0x8C when bit 0 was set. */
  function Shift(d: byte): byte
  {
    if d & 1 == 1 then (d >> 1) ^ 0x8C else d >> 1
  }

  function ShiftPow(d: byte, n: nat): byte
    decreases n
  {
    if n == 0 then d else ShiftPow(Shift(d), n - 1)
  }

  /** One bit of `byte_crc` is one register step of `crc ^ b`, with the data byte shifted alongside. */
  lemma StepXor(crc: byte, b: byte)
    ensures CrcStep(crc, b) ^ (b >> 1) == Shift(crc ^ b)
  {
  }

  /**
   * The running CRC XOR the data bits not yet consumed evolves by the
   * register step alone: `byte_crc` depends only on `crc ^ byte`.
   */
  lemma {:induction false} CrcStepsXor(crc: byte, b: byte, n: nat)
    ensures CrcSteps(crc, b, n) ^ Rest(b, n) == ShiftPow(crc ^ b, n)
    decreases n
  {
    if n > 0 {
      var c, d := CrcStep(crc, b), b >> 1;
      StepXor(crc, b);
      CrcStepsXor(c, d, n - 1);
      assert CrcSteps(crc, b, n) == CrcSteps(c, d, n - 1);
      assert Rest(b, n) == Rest(d, n - 1);
      assert ShiftPow(crc ^ b, n) == ShiftPow(c ^ d, n - 1);
    }
  }

  /** Eight shifts empty the data byte. */
  lemma RestEight(b: byte)
    ensures Rest(b, 8) == 0
  {
    var b1 := b >> 1;
    var b2 := b1 >> 1;
    var b3 := b2 >> 1;
    var b4 := b3 >> 1;
    var b5 := b4 >> 1;
    var b6 := b5 >> 1;
    var b7 := b6 >> 1;
    var b8 := b7 >> 1;
    assert Rest(b, 8) == Rest(b1, 7) == Rest(b2, 6) == Rest(b3, 5) == Rest(b4, 4);
    assert Rest(b4, 4) == Rest(b5, 3) == Rest(b6, 2) == Rest(b7, 1) == Rest(b8, 0);
    assert b8 == 0;
  }

  lemma {:induction false} ShiftPowZero(n: nat)
    ensures ShiftPow(0, n) == 0
    decreases n
  {
    if n > 0 {
      assert Shift(0) == 0;
      ShiftPowZero(n - 1);
    }
  }

  lemma {:induction false} ShiftPowInjective(d1: byte, d2: byte, n: nat)
    requires ShiftPow(d1, n) == ShiftPow(d2, n)
    ensures d1 == d2
    decreases n
  {
    if n > 0 {
      ShiftPowInjective(Shift(d1), Shift(d2), n - 1);
      assert Shift(d1) == Shift(d2) ==> d1 == d2;
    }
  }

  /** One more byte zeroes the CRC exactly when that byte is the CRC so far. */
  lemma ByteCrcZero(crc: byte, b: byte)
    ensures ByteCrcOf(crc, b) == 0 <==> b == crc
  {
    ByteCrcShift(crc, b);
    ShiftPowZero(8);
    if ByteCrcOf(crc, b) == 0 {
      ShiftPowInjective(crc ^ b, 0, 8);
    }
  }

  /** `byte_crc` is eight register steps of `crc ^ byte`. */
  lemma ByteCrcShift(crc: byte, b: byte)
    ensures ByteCrcOf(crc, b) == ShiftPow(crc ^ b, 8)
  {
    CrcStepsXor(crc, b, 8);
    RestEight(b);
  }

  /** Appending its CRC to a byte string makes the CRC of the whole string 0. */
  lemma CrcAppendCrc(s: seq<byte>)
    ensures Crc(s + [Crc(s)]) == 0
  {
    assert (s + [Crc(s)])[..|s|] == s;
    ByteCrcZero(Crc(s), Crc(s));
  }

  /**
   * The check of `ds18b20_read_address` and `ds18b20_read_scratchpad`:
   * the last byte equals the CRC of the ones before it exactly when the
   * CRC of the whole frame is 0.
   */
  lemma CrcAcceptance(s: seq<byte>)
    requires s != []
    ensures s[|s| - 1] == Crc(s[..|s| - 1]) <==> Crc(s) == 0
  {
    ByteCrcZero(Crc(s[..|s| - 1]), s[|s| - 1]);
  }

  /** `byte_crc` written out as its eight bit steps. */
  lemma ByteCrcUnrolled(crc: byte, b: byte)
    ensures ByteCrcOf(crc, b) ==
      var b1 := b >> 1; var b2 := b1 >> 1; var b3 := b2 >> 1; var b4 := b3 >> 1;
      var b5 := b4 >> 1; var b6 := b5 >> 1; var b7 := b6 >> 1;
      CrcStep(CrcStep(CrcStep(CrcStep(CrcStep(CrcStep(CrcStep(CrcStep(crc, b), b1), b2), b3), b4), b5), b6), b7)
  {
    var b1 := b >> 1; var b2 := b1 >> 1; var b3 := b2 >> 1; var b4 := b3 >> 1;
    var b5 := b4 >> 1; var b6 := b5 >> 1; var b7 := b6 >> 1;
    var c1 := CrcStep(crc, b);
    var c2 := CrcStep(c1, b1);
    var c3 := CrcStep(c2, b2);
    var c4 := CrcStep(c3, b3);
    var c5 := CrcStep(c4, b4);
    var c6 := CrcStep(c5, b5);
    var c7 := CrcStep(c6, b6);
    assert CrcSteps(crc, b, 8) == CrcSteps(c1, b1, 7);
    assert CrcSteps(c1, b1, 7) == CrcSteps(c2, b2, 6);
    assert CrcSteps(c2, b2, 6) == CrcSteps(c3, b3, 5);
    assert CrcSteps(c3, b3, 5) == CrcSteps(c4, b4, 4);
    assert CrcSteps(c4, b4, 4) == CrcSteps(c5, b5, 3);
    assert CrcSteps(c5, b5, 3) == CrcSteps(c6, b6, 2);
    assert CrcSteps(c6, b6, 2) == CrcSteps(c7, b7, 1);
    assert CrcSteps(c7, b7, 1) == CrcSteps(CrcStep(c7, b7), b7 >> 1, 0);
  }

  /** The CRC of a string one byte longer is `byte_crc` of the CRC so far. */
  lemma CrcSnoc(s: seq<byte>, b: byte)
    ensures Crc(s + [b]) == ByteCrcOf(Crc(s), b)
  {
    assert (s + [b])[..|s|] == s;
  }

  /** The seven `byte_crc` steps of the Application Note 27 example. */
  lemma ReferenceVectorSteps()
    ensures ByteCrcOf(0x00, 0x02) == 0xBC && ByteCrcOf(0xBC, 0x1C) == 0xAF
    ensures ByteCrcOf(0xAF, 0xB8) == 0x1E && ByteCrcOf(0x1E, 0x01) == 0xDC
    ensures ByteCrcOf(0xDC, 0x00) == 0xF4 && ByteCrcOf(0xF4, 0x00) == 0x15
    ensures ByteCrcOf(0x15, 0x00) == 0xA2
  {
    ByteCrcUnrolled(0x00, 0x02);
    ByteCrcUnrolled(0xBC, 0x1C);
    ByteCrcUnrolled(0xAF, 0xB8);
    ByteCrcUnrolled(0x1E, 0x01);
    ByteCrcUnrolled(0xDC, 0x00);
    ByteCrcUnrolled(0xF4, 0x00);
    ByteCrcUnrolled(0x15, 0x00);
  }

  /**
   * The worked example of Maxim Application Note 27: the ROM code
   * 02 1C B8 01 00 00 00 has CRC A2, so the eight bytes with A2 appended
   * pass the check.
   */
  lemma CrcReferenceVector()
    ensures Crc([0x02, 0x1C, 0xB8, 0x01, 0x00, 0x00, 0x00]) == 0xA2
    ensures Crc([0x02, 0x1C, 0xB8, 0x01, 0x00, 0x00, 0x00, 0xA2]) == 0
  {
    ReferenceVectorSteps();
    var s1: seq<byte> := [0x02];
    assert s1 == [] + [0x02];
    CrcSnoc([], 0x02);
    var s2 := s1 + [0x1C];
    CrcSnoc(s1, 0x1C);
    var s3 := s2 + [0xB8];
    CrcSnoc(s2, 0xB8);
    var s4 := s3 + [0x01];
    CrcSnoc(s3, 0x01);
    var s5 := s4 + [0x00];
    CrcSnoc(s4, 0x00);
    var s6 := s5 + [0x00];
    CrcSnoc(s5, 0x00);
    var s7 := s6 + [0x00];
    CrcSnoc(s6, 0x00);
    assert s7 == [0x02, 0x1C, 0xB8, 0x01, 0x00, 0x00, 0x00];
    CrcAppendCrc(s7);
    assert s7 + [Crc(s7)] == [0x02, 0x1C, 0xB8, 0x01, 0x00, 0x00, 0x00, 0xA2];
  }

  /** `byte_crc`: the counted loop over the 8 bits of `byte`. */
  method ByteCrc(crc0: byte, byte0: byte) returns (crc: byte)
    ensures crc == ByteCrcOf(crc0, byte0)
  {
    crc := crc0;
    var b := byte0;
    var i := 0;
    while i < 8
      invariant i <= 8
      invariant CrcSteps(crc, b, 8 - i) == ByteCrcOf(crc0, byte0)
    {
      var mix := crc ^ b;
      crc := crc >> 1;
      if mix & 1 == 1 {
        crc := crc ^ 0x8C;
      }
      b := b >> 1;
      i := i + 1;
    }
  }

  /** `wire_crc`: the CRC of `data`, byte by byte from 0. */
  method WireCrc(data: seq<byte>) returns (crc: byte)
    ensures crc == Crc(data)
  {
    crc := 0;
    var i := 0;
    while i < |data|
      invariant i <= |data|
      invariant crc == Crc(data[..i])
    {
      assert data[..i + 1][..i] == data[..i];
      crc := ByteCrc(crc, data[i]);
      i := i + 1;
    }
    assert data[..i] == data;
  }

  // ---------------------------------------------------------------------
  // Bit order

  /** The bits of `b` in the order `wire_write` sends them: least significant first. */
  function BitsOf(b: byte): (bits: seq<bool>)
    ensures |bits| == 8
  {
    [b & 0x01 != 0, b & 0x02 != 0, b & 0x04 != 0, b & 0x08 != 0,
     b & 0x10 != 0, b & 0x20 != 0, b & 0x40 != 0, b & 0x80 != 0]
  }

  /** The byte whose bit `i` is `bits[i]`. */
  function ByteOf(bits: seq<bool>): byte
    requires |bits| == 8
  {
    (if bits[0] then 0x01 else 0) | (if bits[1] then 0x02 else 0)
    | (if bits[2] then 0x04 else 0) | (if bits[3] then 0x08 else 0)
    | (if bits[4] then 0x10 else 0) | (if bits[5] then 0x20 else 0)
    | (if bits[6] then 0x40 else 0) | (if bits[7] then 0x80 else 0)
  }

  /** Packing the eight bits of a byte gives the byte back. */
  lemma ByteOfBits(b: byte)
    ensures ByteOf(BitsOf(b)) == b
  {
  }

  /** Splitting a packed byte gives its eight bits back. */
  lemma BitsOfByte(bits: seq<bool>)
    requires |bits| == 8
    ensures BitsOf(ByteOf(bits)) == bits
  {
    var v := ByteOf(bits);
    assert BitsOf(v)[0] == bits[0] && BitsOf(v)[1] == bits[1];
    assert BitsOf(v)[2] == bits[2] && BitsOf(v)[3] == bits[3];
    assert BitsOf(v)[4] == bits[4] && BitsOf(v)[5] == bits[5];
    assert BitsOf(v)[6] == bits[6] && BitsOf(v)[7] == bits[7];
  }

  /** One shift more is one shift of the byte so far. */
  lemma {:induction false} RestShift(b: byte, n: nat)
    ensures Rest(b, n + 1) == Rest(b, n) >> 1
    decreases n
  {
    if n > 0 {
      RestShift(b >> 1, n - 1);
    }
  }

  /** Bit 0 of the byte after `i` shifts is bit `i` of the original byte. */
  lemma {:induction false} RestBit(b: byte, i: nat)
    requires i < 8
    ensures (Rest(b, i) & 1 != 0) == BitsOf(b)[i]
    decreases i
  {
    if i > 0 {
      RestBit(b >> 1, i - 1);
      assert BitsOf(b >> 1)[i - 1] == BitsOf(b)[i];
    }
  }

  /** The top bit of `wire_read`'s byte after bit `x` came in. */
  function Top(x: bool): byte
  {
    if x then 0x80 else 0
  }

  /** The byte `wire_read` holds after shifting in the bits `p`: each new bit enters at the top. */
  function ShiftedIn(p: seq<bool>): byte
  {
    if p == [] then 0 else (ShiftedIn(p[..|p| - 1]) >> 1) | Top(p[|p| - 1])
  }

  /** After eight bits, the first one received has reached the least significant place. */
  lemma ShiftedInByte(bits: seq<bool>)
    requires |bits| == 8
    ensures ShiftedIn(bits) == ByteOf(bits)
  {
    var v1 := Top(bits[0]);
    var v2 := (v1 >> 1) | Top(bits[1]);
    var v3 := (v2 >> 1) | Top(bits[2]);
    var v4 := (v3 >> 1) | Top(bits[3]);
    var v5 := (v4 >> 1) | Top(bits[4]);
    var v6 := (v5 >> 1) | Top(bits[5]);
    var v7 := (v6 >> 1) | Top(bits[6]);
    var v8 := (v7 >> 1) | Top(bits[7]);
    assert ShiftedIn(bits[..1]) == v1 by { assert bits[..1][..0] == []; }
    assert ShiftedIn(bits[..2]) == v2 by { assert bits[..2][..1] == bits[..1]; }
    assert ShiftedIn(bits[..3]) == v3 by { assert bits[..3][..2] == bits[..2]; }
    assert ShiftedIn(bits[..4]) == v4 by { assert bits[..4][..3] == bits[..3]; }
    assert ShiftedIn(bits[..5]) == v5 by { assert bits[..5][..4] == bits[..4]; }
    assert ShiftedIn(bits[..6]) == v6 by { assert bits[..6][..5] == bits[..5]; }
    assert ShiftedIn(bits[..7]) == v7 by { assert bits[..7][..6] == bits[..6]; }
    assert ShiftedIn(bits) == v8 by { assert bits[..7] == bits[..|bits| - 1]; }
  }

  /** The bits of a byte string, byte after byte, each least significant first. */
  function BytesBits(bs: seq<byte>): seq<bool>
  {
    if bs == [] then [] else BytesBits(bs[..|bs| - 1]) + BitsOf(bs[|bs| - 1])
  }

  lemma {:induction false} BytesBitsConcat(a: seq<byte>, b: seq<byte>)
    ensures BytesBits(a + b) == BytesBits(a) + BytesBits(b)
    decreases |b|
  {
    if b == [] {
      assert a + b == a;
    } else {
      assert (a + b)[..|a + b| - 1] == a + b[..|b| - 1];
      BytesBitsConcat(a, b[..|b| - 1]);
    }
  }

  lemma SingleBytesBits(b: byte)
    ensures BytesBits([b]) == BitsOf(b)
  {
    assert [b][..0] == [];
  }

  /** The bytes `send_cmd` puts on the bus after the reset. */
  function CommandFrame(rom: Option<seq<byte>>, cmd: byte): (frame: seq<byte>)
    ensures rom.None? ==> |frame| == 2 && frame[0] == SKIP_ROM
    ensures rom.Some? ==> |frame| == |rom.value| + 2 && frame[0] == MATCH_ROM && frame[1..|frame| - 1] == rom.value
    ensures frame[|frame| - 1] == cmd
  {
    match rom
    case None => [SKIP_ROM, cmd]
    case Some(code) => [MATCH_ROM] + code + [cmd]
  }

  /** The bits of a command frame: the ROM command, the ROM code if any, then the command. */
  lemma CommandFrameBits(rom: Option<seq<byte>>, cmd: byte)
    ensures rom.None? ==> BytesBits(CommandFrame(rom, cmd)) == BitsOf(SKIP_ROM) + BitsOf(cmd)
    ensures rom.Some? ==>
      BytesBits(CommandFrame(rom, cmd)) == BitsOf(MATCH_ROM) + BytesBits(rom.value) + BitsOf(cmd)
  {
    SingleBytesBits(cmd);
    match rom
    case None =>
      SingleBytesBits(SKIP_ROM);
      BytesBitsConcat([SKIP_ROM], [cmd]);
    case Some(code) =>
      SingleBytesBits(MATCH_ROM);
      BytesBitsConcat([MATCH_ROM], code);
      BytesBitsConcat([MATCH_ROM] + code, [cmd]);
  }

  /** The first `n` bits the device will send; a silent bus reads as 1. */
  function TakeBits(q: seq<bool>, n: nat): seq<bool>
  {
    seq(n, j requires 0 <= j < n => if j < |q| then q[j] else true)
  }

  /** The bits the device has left to send after `n` were read. */
  function DropBits(q: seq<bool>, n: nat): seq<bool>
  {
    if n <= |q| then q[n..] else []
  }

  /** The `n` bytes `wire_read` decodes from the bits `q`, eight bits each. */
  function ReadBytes(q: seq<bool>, n: nat): seq<byte>
  {
    seq(n, i requires 0 <= i < n => ByteOf(TakeBits(DropBits(q, 8 * i), 8)))
  }

  /** A byte `wire_write` puts on the bus is the byte `wire_read` takes off it. */
  lemma WriteReadRoundTrip(b: byte, later: seq<bool>)
    ensures ByteOf(TakeBits(BitsOf(b) + later, 8)) == b
  {
    assert TakeBits(BitsOf(b) + later, 8) == BitsOf(b);
    ByteOfBits(b);
  }

  lemma DropDrop(q: seq<bool>, m: nat, n: nat)
    ensures DropBits(DropBits(q, m), n) == DropBits(q, m + n)
  {
  }

  /** The 1-Wire bus as the driver sees it through `write_bit`, `read_bit` and `wire_reset`. */
  class OneWireBus {
    /** Every bit written, in order. */
    ghost var written: seq<bool>
    /** The bits the device will send on the next read slots. */
    var incoming: seq<bool>
    /** Whether a device answers the reset pulse with a presence pulse. */
    const devicePresent: bool

    constructor (devicePresent: bool, incoming: seq<bool>)
      ensures this.devicePresent == devicePresent && this.incoming == incoming && written == []
    {
      this.devicePresent := devicePresent;
      this.incoming := incoming;
      written := [];
    }

    /** `wire_reset`: 0 when a device answered, 1 otherwise. */
    method WireReset() returns (r: int)
      ensures r == if devicePresent then 0 else 1
    {
      r := if devicePresent then 0 else 1;
    }

    method WriteBit(v: bool)
      modifies this
      ensures written == old(written) + [v] && incoming == old(incoming)
    {
      written := written + [v];
    }

    method ReadBit() returns (v: bool)
      modifies this
      ensures v == TakeBits(old(incoming), 1)[0] && incoming == DropBits(old(incoming), 1)
      ensures written == old(written)
    {
      v := if incoming == [] then true else incoming[0];
      incoming := if incoming == [] then [] else incoming[1..];
    }

    /** `wire_write`: the eight bits of `byte0`, least significant first. */
    method WireWrite(byte0: byte)
      modifies this
      ensures written == old(written) + BitsOf(byte0) && incoming == old(incoming)
    {
      var b := byte0;
      var i := 0;
      while i < 8
        invariant i <= 8 && b == Rest(byte0, i) && incoming == old(incoming)
        invariant written == old(written) + BitsOf(byte0)[..i]
      {
        RestBit(byte0, i);
        RestShift(byte0, i);
        WriteBit(b & 0x01 != 0);
        assert BitsOf(byte0)[..i + 1] == BitsOf(byte0)[..i] + [BitsOf(byte0)[i]];
        b := b >> 1;
        i := i + 1;
      }
    }

    /** `wire_read`: eight bits, the first received in the least significant place. */
    method WireRead() returns (value: byte)
      modifies this
      ensures value == ByteOf(TakeBits(old(incoming), 8)) && incoming == DropBits(old(incoming), 8)
      ensures written == old(written)
    {
      ghost var q := incoming;
      value := 0;
      var i := 0;
      while i < 8
        invariant i <= 8 && incoming == DropBits(q, i) && written == old(written)
        invariant value == ShiftedIn(TakeBits(q, i))
      {
        value := value >> 1;
        var bit := ReadBit();
        if bit {
          value := value | 0x80;
        }
        assert TakeBits(q, i + 1)[..i] == TakeBits(q, i);
        DropDrop(q, i, 1);
        i := i + 1;
      }
      ShiftedInByte(TakeBits(q, 8));
    }

    /** The `n` bytes read by `n` calls of `wire_read`. */
    method WireReadBytes(n: nat) returns (bytes: seq<byte>)
      modifies this
      ensures bytes == ReadBytes(old(incoming), n) && incoming == DropBits(old(incoming), 8 * n)
      ensures written == old(written)
    {
      ghost var q := incoming;
      bytes := [];
      var i := 0;
      while i < n
        invariant i <= n && bytes == ReadBytes(q, i) && incoming == DropBits(q, 8 * i)
        invariant written == old(written)
      {
        var b := WireRead();
        DropDrop(q, 8 * i, 8);
        bytes := bytes + [b];
        i := i + 1;
      }
    }

    /**
     * `send_cmd`: after a successful reset, SKIP ROM (no ROM code given)
     * or MATCH ROM and the eight ROM bytes, then the command; 1 and
     * nothing sent when no device answers the reset.
     */
    method SendCmd(rom: Option<seq<byte>>, cmd: byte) returns (r: int)
      requires rom.Some? ==> |rom.value| == ROM_CODE_SIZE
      modifies this
      ensures r == (if devicePresent then 0 else 1) && incoming == old(incoming)
      ensures r != 0 ==> written == old(written)
      ensures r == 0 ==> written == old(written) + BytesBits(CommandFrame(rom, cmd))
    {
      r := WireReset();
      if r != 0 {
        return;
      }
      ghost var w0 := written;
      ghost var head: seq<bool>;
      if rom.None? {
        WireWrite(SKIP_ROM);
        head := BitsOf(SKIP_ROM);
      } else {
        WireWrite(MATCH_ROM);
        WriteRomCode(rom.value);
        head := BitsOf(MATCH_ROM) + BytesBits(rom.value);
        SeqAssoc(w0, BitsOf(MATCH_ROM), BytesBits(rom.value));
      }
      assert written == w0 + head;
      WireWrite(cmd);
      SeqAssoc(w0, head, BitsOf(cmd));
      CommandFrameBits(rom, cmd);
    }

    /** The MATCH ROM loop of `send_cmd`: the ROM code, byte by byte. */
    method WriteRomCode(code: seq<byte>)
      modifies this
      ensures written == old(written) + BytesBits(code) && incoming == old(incoming)
    {
      var i := 0;
      while i < |code|
        invariant i <= |code| && written == old(written) + BytesBits(code[..i]) && incoming == old(incoming)
      {
        ghost var w := written;
        WireWrite(code[i]);
        assert code[..i + 1][..i] == code[..i];
        assert BytesBits(code[..i + 1]) == BytesBits(code[..i]) + BitsOf(code[i]);
        SeqAssoc(old(written), BytesBits(code[..i]), BitsOf(code[i]));
        i := i + 1;
      }
      assert code[..i] == code;
    }

    /** `ds18b20_start_measure`: CONVERT T framed by `send_cmd`. */
    method StartMeasure(rom: Option<seq<byte>>) returns (r: int)
      requires rom.Some? ==> |rom.value| == ROM_CODE_SIZE
      modifies this
      ensures r == (if devicePresent then 0 else 1) && incoming == old(incoming)
      ensures r != 0 ==> written == old(written)
      ensures r == 0 ==> written == old(written) + BytesBits(CommandFrame(rom, CONVERT_T))
    {
      r := SendCmd(rom, CONVERT_T);
    }

    /**
     * `ds18b20_read_address`: READ ROM, then eight bytes; 0 exactly when
     * the last byte is the CRC of the first seven.
     */
    method ReadAddress() returns (r: int, rom: seq<byte>)
      modifies this
      ensures !devicePresent ==> r == 1 && rom == [] && written == old(written) && incoming == old(incoming)
      ensures devicePresent ==> written == old(written) + BitsOf(READ_ROM)
      ensures devicePresent ==> rom == ReadBytes(old(incoming), ROM_CODE_SIZE)
      ensures devicePresent ==> incoming == DropBits(old(incoming), 8 * ROM_CODE_SIZE)
      ensures devicePresent ==> (r == 0 <==> rom[ROM_CODE_SIZE - 1] == Crc(rom[..ROM_CODE_SIZE - 1]))
      ensures r == 0 ==> |rom| == ROM_CODE_SIZE && Crc(rom) == 0
      ensures r == 0 || r == 1
    {
      var reset := WireReset();
      if reset != 0 {
        return 1, [];
      }
      WireWrite(READ_ROM);
      rom := WireReadBytes(ROM_CODE_SIZE);
      var crc := WireCrc(rom[..ROM_CODE_SIZE - 1]);
      CrcAcceptance(rom);
      r := if rom[ROM_CODE_SIZE - 1] != crc then 1 else 0;
    }

    /**
     * `ds18b20_read_scratchpad`: READ SCRATCHPAD framed by `send_cmd`,
     * then nine bytes; 0 exactly when the last byte is the CRC of the
     * first eight; 1 when the command could not be sent.
     */
    method ReadScratchpad(rom: Option<seq<byte>>) returns (r: int, pad: seq<byte>)
      requires rom.Some? ==> |rom.value| == ROM_CODE_SIZE
      modifies this
      ensures !devicePresent ==> r == 1 && pad == [] && written == old(written) && incoming == old(incoming)
      ensures devicePresent ==> written == old(written) + BytesBits(CommandFrame(rom, READ_SCRATCHPAD))
      ensures devicePresent ==> pad == ReadBytes(old(incoming), SCRATCHPAD_SIZE)
      ensures devicePresent ==> incoming == DropBits(old(incoming), 8 * SCRATCHPAD_SIZE)
      ensures devicePresent ==> (r == 0 <==> pad[SCRATCHPAD_SIZE - 1] == Crc(pad[..SCRATCHPAD_SIZE - 1]))
      ensures r == 0 ==> |pad| == SCRATCHPAD_SIZE && Crc(pad) == 0
      ensures r == 0 || r == 1
    {
      var sent := SendCmd(rom, READ_SCRATCHPAD);
      if sent != 0 {
        return 1, [];
      }
      pad := WireReadBytes(SCRATCHPAD_SIZE);
      var crc := WireCrc(pad[..SCRATCHPAD_SIZE - 1]);
      CrcAcceptance(pad);
      r := if pad[SCRATCHPAD_SIZE - 1] != crc then 1 else 0;
    }
  }
}
