/**
 * The MFRC522 driver: register access over SPI, the command engine
 * (_tocard), the CRC coprocessor and the ISO/IEC 14443-3 Type A and
 * MIFARE Classic commands built on them.
 *
 * The driver object owns the chip state; the card in the field is the
 * responder fixed when the object is built.
 */
module Mfrc522 {
  import opened Wrappers
  import opened Mfrc522Chip

  // Request modes and authentication commands.
  const REQIDL: Byte := 0x26
  const REQALL: Byte := 0x52
  const AUTHENT1A: Byte := 0x60
  const AUTHENT1B: Byte := 0x61

  // Card commands (ISO/IEC 14443-3 clause 6 and MIFARE Classic).
  const PiccHalt: Byte := 0x50
  const PiccWupa: Byte := 0x52
  const PiccRead: Byte := 0x30
  const PiccWrite: Byte := 0xA0
  const SelectCascade1: Byte := 0x93
  /** The request byte a "magic" clone card answers (sent with 7 bits). */
  const ChinaMagic: Byte := 0x40

  /** Python's integer complement ~x. */
  function PyInvert(x: int): int
  {
    -x - 1
  }

  /**
   * The test that ends the poll loop of _tocard, evaluated as Python does:
   * `and` yields its deciding operand and `~` is integer complement, so
   * `~(n & 0x01)` is never false.
   */
  function PollTest(i: int, n: Byte, wait: Byte): bool
  {
    var first: int := if i != 0 then 1 else 0;
    var conj: int :=
      if first == 0 then 0
      else if PyInvert((n & 0x01) as int) == 0 then PyInvert((n & 0x01) as int)
      else PyInvert((n & wait) as int);
    PyInvert(conj) != 0
  }

  /** The poll ends when the counter reaches zero or a bit of wait shows; the timer bit 0x01 alone does not end it. */
  lemma PollTestReduces(i: int, n: Byte, wait: Byte)
    ensures PollTest(i, n, wait) <==> i == 0 || n & wait != 0
  {
  }

  /** Evaluates the poll loop's break test (PollTest) for counter i and ComIrqReg value n. */
  method PollStops(i: int, n: Byte, wait: Byte) returns (stop: bool)
    ensures stop <==> i == 0 || n & wait != 0
  {
    PollTestReduces(i, n, wait);
    stop := PollTest(i, n, wait);
  }

  /** `antenna_on` tests `~(TxControlReg & 0x03)`, which is never zero. */
  lemma AntennaTestAlwaysTrue(v: Byte)
    ensures PyInvert((v & 0x03) as int) != 0
  {
  }

  /** What the card answers to frame f after the frames before it. */
  function Outcome(card: Responder, before: seq<Frame>, f: Frame): Transfer
  {
    Exchange(f.command, card(before, f))
  }

  /** The block a sector trailer occupies (sectorkeytable of setKey). */
  function TrailerBlockOf(sector: int): int
  {
    4 * sector + 3
  }

  /** A 16-byte sector trailer: key A, four access bytes, key B. */
  function Trailer(keyA: seq<Byte>, access: seq<Byte>, keyB: seq<Byte>): (t: seq<Byte>)
    requires |access| == 4
    ensures |t| == |Take(keyA, 6)| + 4 + |Take(keyB, 6)|
    ensures |keyA| >= 6 && |keyB| >= 6 ==> |t| == 16 && t[..6] == keyA[..6] && t[6..10] == access && t[10..] == keyB[..6]
  {
    Take(keyA, 6) + access + Take(keyB, 6)
  }

  /** Access bytes setKey writes: data blocks written with key B, read with key A. */
  const LockedAccess: seq<Byte> := [0x78, 0x77, 0x88, 0x69]
  /** Access bytes reSetKeyOpen writes: the transport configuration. */
  const OpenAccess: seq<Byte> := [0xFF, 0x07, 0x80, 0x69]

  /** A write acknowledgement: 4 bits whose low nibble is 0xA. */
  predicate Acked(t: Transfer)
  {
    t.stat == OK && t.bits == 4 && |t.recv| > 0 && t.recv[0] & 0x0F == 0x0A
  }

  /** Exclusive or of the first four bytes: the UID check byte (BCC). */
  function Bcc(s: seq<Byte>): Byte
    requires |s| >= 4
  {
    s[0] ^ s[1] ^ s[2] ^ s[3]
  }

  /** Exclusive or of a byte sequence. */
  function XorFold(s: seq<Byte>): Byte
  {
    if s == [] then 0 else XorFold(s[..|s| - 1]) ^ s[|s| - 1]
  }

  /** Folding the first four bytes gives the BCC. */
  lemma XorFoldFirstFour(s: seq<Byte>)
    requires |s| >= 4
    ensures XorFold(s[..4]) == Bcc(s)
  {
    assert s[..4][..3] == s[..3] && s[..3][..2] == s[..2] && s[..2][..1] == s[..1] && s[..1][..0] == [];
    calc {
      XorFold(s[..4]);
      XorFold(s[..3]) ^ s[3];
      XorFold(s[..2]) ^ s[2] ^ s[3];
      XorFold(s[..1]) ^ s[1] ^ s[2] ^ s[3];
      (0 as Byte) ^ s[0] ^ s[1] ^ s[2] ^ s[3];
    }
  }

  /** The trailer block of each of the 16 sectors (sectorkeytable). */
  const SectorKeyTable: seq<Byte> := [3, 7, 11, 15, 19, 23, 27, 31, 35, 39, 43, 47, 51, 55, 59, 63]

  /** The trailer block the table yields for a sector, with Python's negative indexing. */
  function TrailerAddress(sector: int): Byte
    requires -16 <= sector < 16
  {
    SectorKeyTable[if sector < 0 then sector + 16 else sector]
  }

  /** The table holds block 4s+3, the last block of sector s. */
  lemma TrailerAddressIsLastBlock(sector: int)
    requires 0 <= sector < 16
    ensures TrailerAddress(sector) as int == TrailerBlockOf(sector)
    ensures TrailerAddress(sector) as int % 4 == 3 && TrailerAddress(sector) as int / 4 == sector
  {
  }

  /** The trailer, built as setKey builds it: extend key A, append the access bytes, extend key B. */
  function TrailerKey(keyA: seq<Byte>, access: seq<Byte>, keyB: seq<Byte>): (key: seq<Byte>)
    requires |access| == 4
    ensures key == Trailer(keyA, access, keyB)
  {
    Take(keyA, 6) + [access[0]] + [access[1]] + [access[2]] + [access[3]] + Take(keyB, 6)
  }

  /** Frame that carries a MIFARE READ of block addr. */
  function ReadFrame(addr: Byte, tx: Byte): Frame
  {
    Frame(Transceive, [PiccRead, addr] + CrcA([PiccRead, addr]), tx)
  }

  /** Phase one of a MIFARE WRITE: the command and the block address. */
  function WriteCommandFrame(addr: Byte, tx: Byte): Frame
  {
    Frame(Transceive, [PiccWrite, addr] + CrcA([PiccWrite, addr]), tx)
  }

  /** Phase two of a MIFARE WRITE: the 16 data bytes. */
  function WriteDataFrame(data: seq<Byte>, tx: Byte): Frame
    requires |data| >= 16
  {
    Frame(Transceive, data[..16] + CrcA(data[..16]), tx)
  }

  /** The frames write sends, and whether it raises for data shorter than 16 bytes. */
  function WriteFrames(card: Responder, frames: seq<Frame>, tx: Byte, addr: Byte, data: seq<Byte>): (seq<Frame>, bool)
  {
    var f1 := WriteCommandFrame(addr, tx);
    if !Acked(Outcome(card, frames, f1)) then ([f1], false)
    else if |data| < 16 then ([f1], true)
    else ([f1, WriteDataFrame(data, tx)], false)
  }

  /** The status write returns when it does not raise: OK iff both phases were acknowledged. */
  function WriteStatus(card: Responder, frames: seq<Frame>, tx: Byte, addr: Byte, data: seq<Byte>): Status
  {
    var f1 := WriteCommandFrame(addr, tx);
    if Acked(Outcome(card, frames, f1)) && |data| >= 16 && Acked(Outcome(card, frames + [f1], WriteDataFrame(data, tx)))
    then OK else ERR
  }

  /** Only the first 16 data bytes matter to write: longer data with the same prefix sends the same frames. */
  lemma WriteUsesFirstSixteen(card: Responder, frames: seq<Frame>, tx: Byte, addr: Byte, d1: seq<Byte>, d2: seq<Byte>)
    requires |d1| >= 16 && |d2| >= 16 && d1[..16] == d2[..16]
    ensures WriteFrames(card, frames, tx, addr, d1) == WriteFrames(card, frames, tx, addr, d2)
    ensures WriteStatus(card, frames, tx, addr, d1) == WriteStatus(card, frames, tx, addr, d2)
  {
  }

  /** A write reports OK only if the data frame went out and both phases were acknowledged. */
  lemma WriteOkNeedsBothAcks(card: Responder, frames: seq<Frame>, tx: Byte, addr: Byte, data: seq<Byte>)
    requires WriteStatus(card, frames, tx, addr, data) == OK
    ensures |data| >= 16
    ensures WriteFrames(card, frames, tx, addr, data) == ([WriteCommandFrame(addr, tx), WriteDataFrame(data, tx)], false)
    ensures Acked(Outcome(card, frames, WriteCommandFrame(addr, tx)))
    ensures Acked(Outcome(card, frames + [WriteCommandFrame(addr, tx)], WriteDataFrame(data, tx)))
  {
  }

  /** The registers init programs: timer, 100% ASK, CRC preset 0x6363 and both antenna drivers on. */
  predicate Configured(c: Chip)
    requires |c.regs| == RegisterCount
  {
    && Reg(c, TModeReg) == 0x8D && Reg(c, TPrescalerReg) == 0x3E
    && Reg(c, TReloadRegL) == 30 && Reg(c, TReloadRegH) == 0
    && Reg(c, TxASKReg) == 0x40 && Reg(c, ModeReg) == 0x3D
    && Reg(c, TxControlReg) & 0x03 == 0x03
  }

  class MFRC522 {
    const card: Responder
    var chip: Chip

    predicate Valid()
      reads this
    {
      Wellformed(chip)
    }

    /** Builds the driver for a card and the chip's power-on registers, then runs init (__init__). */
    constructor (card: Responder, powerOn: seq<Byte>)
      requires |powerOn| == RegisterCount
      ensures Valid() && Configured(chip) && this.card == card
      ensures chip.frames == [] && chip.fifo == [] && chip.irqQueue == []
    {
      this.card := card;
      chip := Chip(powerOn, [], [], 0, []);
      new;
      Init();
    }

    /** Writes val to register reg with one chip-select-bracketed SPI exchange. */
    method Wreg(reg: Byte, val: Byte)
      requires Valid()
      modifies this
      ensures Valid()
      ensures chip == WriteReg(card, old(chip), reg & 0x3F, val)
    {
      var addr := WriteAddress(reg);
      AddressRoundTrip(reg);
      chip := WriteReg(card, chip, AddressedRegister(addr), val);
    }

    /** Reads register reg. */
    method Rreg(reg: Byte) returns (val: Byte)
      requires Valid()
      modifies this
      ensures Valid()
      ensures (val, chip) == ReadReg(old(chip), reg & 0x3F)
    {
      var addr := ReadAddress(reg);
      AddressRoundTrip(reg);
      var res := ReadReg(chip, AddressedRegister(addr));
      val, chip := res.0, res.1;
    }

    method SFlags(reg: Byte, mask: Byte)
      requires Valid() && reg < 64
      modifies this
      ensures Valid()
      ensures chip == SetFlags(card, old(chip), reg, mask)
    {
      var v := Rreg(reg);
      Wreg(reg, v | mask);
    }

    method CFlags(reg: Byte, mask: Byte)
      requires Valid() && reg < 64
      modifies this
      ensures Valid()
      ensures chip == ClearFlags(card, old(chip), reg, mask)
    {
      var v := Rreg(reg);
      Wreg(reg, v & !mask);
    }

    /** Flushes the FIFO by setting FlushBuffer (bit 7 of FIFOLevelReg). */
    method Flush()
      requires Valid()
      modifies this
      ensures Valid()
      ensures chip == old(chip).(fifo := [])
    {
      SFlags(FIFOLevelReg, 0x80);
    }

    /** Writes each byte of data to FIFODataReg; bytes beyond the 64-byte FIFO are lost. */
    method Fill(data: seq<Byte>)
      requires Valid() && chip.fifo == []
      modifies this
      ensures Valid()
      ensures chip == old(chip).(fifo := Take(data, FifoSize))
    {
      for k := 0 to |data|
        invariant Valid()
        invariant chip == old(chip).(fifo := Take(data[..k], FifoSize))
      {
        assert data[..k + 1] == data[..k] + [data[k]];
        Wreg(FIFODataReg, data[k]);
      }
      assert data[..|data|] == data;
    }

    /** Loads the FIFO with send and starts cmd (_tocard up to the poll). */
    method Load(cmd: Byte, send: seq<Byte>)
      requires Valid() && (cmd == Transceive || cmd == MFAuthent)
      modifies this
      ensures Valid()
      ensures var f := Frame(cmd, Take(send, FifoSize), TxBits(old(chip)));
        var reply := card(old(chip).frames, f);
        && chip.frames == old(chip).frames + [f]
        && chip.fifo == Take(reply.data, FifoSize)
        && chip.irqQueue == reply.irqs
        && Reg(chip, ComIrqReg) == 0
        && Reg(chip, ErrorReg) == reply.error
        && Reg(chip, ControlReg) == reply.rxLastBits
      ensures Reg(chip, BitFramingReg) & 0x7F == Reg(old(chip), BitFramingReg) & 0x7F
      ensures Reg(chip, ComIEnReg) == IrqEnable(cmd) | 0x80
      ensures RegsAgreeExcept(old(chip), chip, {1, 2, 4, 6, 12, 13})
      ensures chip.irqReads == old(chip).irqReads + 1
    {
      Prepare(cmd, send);
      Launch(cmd);
    }

    /** The set-up part of _tocard: interrupts enabled, IRQ flags cleared, FIFO flushed, chip idle, send loaded. */
    method Prepare(cmd: Byte, send: seq<Byte>)
      requires Valid()
      modifies this
      ensures Valid()
      ensures chip.fifo == Take(send, FifoSize) && chip.frames == old(chip).frames
      ensures chip.irqReads == old(chip).irqReads + 1
      ensures Reg(chip, ComIEnReg) == IrqEnable(cmd) | 0x80
      ensures RegsAgreeExcept(old(chip), chip, {1, 2, 4})
    {
      ghost var c0 := chip;
      Wreg(ComIEnReg, IrqEnable(cmd) | 0x80);
      WritePlain(card, c0, ComIEnReg, IrqEnable(cmd) | 0x80);
      ghost var c1 := chip;
      ClearIrqEffect(card, c1);
      CFlags(ComIrqReg, 0x80);
      ghost var c2 := chip;
      FlushEmptiesFifo(card, c2);
      Flush();
      ghost var c3 := chip;
      WriteCommandEffect(card, c3, Idle);
      Wreg(CommandReg, Idle);
      ghost var c4 := chip;
      Fill(send);
      ghost var loaded := chip;
      assert RegsAgreeExcept(c0, loaded, {1, 2, 4});
    }

    /** Writes cmd to CommandReg and, for Transceive, sets StartSend: either way the chip transmits the FIFO. */
    method Launch(cmd: Byte)
      requires Valid() && (cmd == Transceive || cmd == MFAuthent)
      modifies this
      ensures Valid()
      ensures var f := Frame(cmd, old(chip).fifo, TxBits(old(chip)));
        var reply := card(old(chip).frames, f);
        && chip.frames == old(chip).frames + [f]
        && chip.fifo == Take(reply.data, FifoSize)
        && chip.irqQueue == reply.irqs && chip.irqReads == old(chip).irqReads
        && Reg(chip, ComIrqReg) == 0
        && Reg(chip, ErrorReg) == reply.error
        && Reg(chip, ControlReg) == reply.rxLastBits
      ensures Reg(chip, BitFramingReg) & 0x7F == Reg(old(chip), BitFramingReg) & 0x7F
      ensures RegsAgreeExcept(old(chip), chip, {1, 4, 6, 12, 13})
    {
      ghost var c0 := chip;
      WriteCommandEffect(card, c0, cmd);
      Wreg(CommandReg, cmd);
      if cmd == Transceive {
        ghost var armed := chip;
        assert armed == SetReg(c0, CommandReg, cmd);
        StartSendEffect(card, armed);
        SFlags(BitFramingReg, 0x80);
        ghost var v := Reg(c0, BitFramingReg);
        assert (v | 0x80) & 0x7F == v & 0x7F;
      }
    }

    /** The poll loop of _tocard: reads ComIrqReg until the test on line 99 holds. */
    method Poll(wait: Byte) returns (i: int, n: Byte)
      requires Valid() && Reg(chip, ComIrqReg) == 0
      modifies this
      ensures Valid()
      ensures var polls := PollReads(old(chip).irqQueue, wait, 0);
        && i == PollLimit - polls
        && n == IrqAt(old(chip).irqQueue, polls - 1)
        && chip == AfterIrqReads(old(chip), old(chip).irqQueue, polls)
    {
      ghost var c0 := chip;
      ghost var irqs := chip.irqQueue;
      assert c0 == AfterIrqReads(c0, irqs, 0);
      i := PollLimit;
      n := 0;
      while true
        invariant 0 < i <= PollLimit
        invariant chip == AfterIrqReads(c0, irqs, PollLimit - i)
        invariant Valid()
        invariant PollReads(irqs, wait, 0) == PollReads(irqs, wait, PollLimit - i)
        decreases i
      {
        ReadIrqStep(c0, irqs, PollLimit - i);
        n := Rreg(ComIrqReg);
        i := i - 1;
        var stop := PollStops(i, n, wait);
        if stop {
          break;
        }
      }
    }

    /** Reads count bytes from FIFODataReg. */
    method Drain(count: int) returns (recv: seq<Byte>)
      requires Valid() && count >= 0
      modifies this
      ensures Valid()
      ensures recv == Pops(old(chip).fifo, count)
      ensures chip == old(chip).(fifo := Drop(old(chip).fifo, count))
    {
      recv := [];
      for k := 0 to count
        invariant Valid()
        invariant recv == Pops(old(chip).fifo, k)
        invariant chip == old(chip).(fifo := Drop(old(chip).fifo, k))
      {
        var b := Rreg(FIFODataReg);
        assert recv + [b] == Pops(old(chip).fifo, k + 1);
        recv := recv + [b];
      }
    }

    /** Collects a transceive answer: bit count from FIFOLevelReg and RxLastBits, then the clamped FIFO drain. */
    method ReadAnswer() returns (recv: seq<Byte>, bits: int)
      requires Valid()
      modifies this
      ensures Valid()
      ensures bits == ReceivedBits(|old(chip).fifo|, Reg(old(chip), ControlReg))
      ensures recv == Pops(old(chip).fifo, Clamp(|old(chip).fifo|))
      ensures chip == old(chip).(fifo := Drop(old(chip).fifo, Clamp(|old(chip).fifo|)))
    {
      FifoLevelRead(chip);
      var n := Rreg(FIFOLevelReg);
      ReadOrdinary(chip, ControlReg);
      var lbits := Rreg(ControlReg);
      lbits := lbits & 0x07;
      var count: int := n as int;
      if lbits != 0 {
        bits := (count - 1) * 8 + lbits as int;
      } else {
        bits := count * 8;
      }
      if count == 0 {
        count := 1;
      } else if count > 16 {
        count := 16;
      }
      recv := Drain(count);
    }

    /** The end of _tocard: clear StartSend, check the error flags and collect the answer. */
    method Conclude(cmd: Byte, i: int, n: Byte, ghost reply: Reply) returns (stat: Status, recv: seq<Byte>, bits: int)
      requires Valid() && (cmd == Transceive || cmd == MFAuthent)
      requires i == PollLimit - PollReads(reply.irqs, IrqWait(cmd), 0)
      requires n == IrqAt(reply.irqs, PollReads(reply.irqs, IrqWait(cmd), 0) - 1)
      requires chip.fifo == Take(reply.data, FifoSize)
      requires Reg(chip, ErrorReg) == reply.error && Reg(chip, ControlReg) == reply.rxLastBits
      modifies this
      ensures Valid()
      ensures Transfer(stat, recv, bits) == Exchange(cmd, reply)
      ensures chip.regs == old(chip).regs[BitFramingReg as int := Reg(old(chip), BitFramingReg) & 0x7F]
      ensures chip.frames == old(chip).frames && chip.irqReads == old(chip).irqReads
    {
      StopSendEffect(card, chip);
      CFlags(BitFramingReg, 0x80);
      stat, recv, bits := ERR, [], 0;
      if i != 0 {
        ReadOrdinary(chip, ErrorReg);
        var err := Rreg(ErrorReg);
        if err & 0x1B == 0 {
          stat := OK;
          if n & IrqEnable(cmd) & 0x01 != 0 {
            stat := NOTAGERR;
          } else if cmd == Transceive {
            recv, bits := ReadAnswer();
          }
        } else {
          stat := ERR;
        }
      }
    }

    /** Sends send with command cmd and collects the card's answer (_tocard). */
    method ToCard(cmd: Byte, send: seq<Byte>) returns (stat: Status, recv: seq<Byte>, bits: int)
      requires Valid() && (cmd == Transceive || cmd == MFAuthent)
      modifies this
      ensures Valid()
      ensures var f := Frame(cmd, Take(send, FifoSize), TxBits(old(chip)));
        && chip.frames == old(chip).frames + [f]
        && Transfer(stat, recv, bits) == Outcome(card, old(chip).frames, f)
        && chip.irqReads == old(chip).irqReads + 1 + PollReads(card(old(chip).frames, f).irqs, IrqWait(cmd), 0)
      ensures Reg(chip, BitFramingReg) == Reg(old(chip), BitFramingReg) & 0x7F
      ensures RegsAgreeExcept(old(chip), chip, {1, 2, 4, 6, 12, 13})
    {
      ghost var f := Frame(cmd, Take(send, FifoSize), TxBits(old(chip)));
      ghost var reply := card(old(chip).frames, f);
      Load(cmd, send);
      var i, n := Poll(IrqWait(cmd));
      stat, recv, bits := Conclude(cmd, i, n, reply);
    }


    /** Computes CRC_A of data with the chip's coprocessor (_crc). */
    method Crc(data: seq<Byte>) returns (r: seq<Byte>)
      requires Valid()
      modifies this
      ensures Valid()
      ensures r == CrcA(Take(data, FifoSize))
      ensures chip.frames == old(chip).frames && chip.fifo == []
      ensures chip.irqQueue == old(chip).irqQueue && chip.irqReads == old(chip).irqReads
      ensures RegsAgreeExcept(old(chip), chip, {1, 5, 0x21, 0x22})
    {
      FlagsOnPlainRegister(card, chip, DivIrqReg, 0x04);
      CFlags(DivIrqReg, 0x04);
      Flush();
      Fill(data);
      ghost var loaded := chip;
      Wreg(CommandReg, CalcCRC);
      ghost var computed := chip;
      var i := 0xFF;
      while true
        invariant Valid() && 0 < i <= 0xFF && chip == computed
        decreases i
      {
        ReadOrdinary(chip, DivIrqReg);
        var n := Rreg(DivIrqReg);
        i := i - 1;
        if !(i != 0 && n & 0x04 == 0) {
          break;
        }
      }
      CalcCrcEffect(card, loaded);
      ReadOrdinary(chip, CRCResultRegL);
      var lo := Rreg(CRCResultRegL);
      ReadOrdinary(chip, CRCResultRegH);
      var hi := Rreg(CRCResultRegH);
      r := [lo, hi];
    }

    /** SoftReset command (reset). */
    method Reset()
      requires Valid()
      modifies this
      ensures Valid()
      ensures chip == old(chip).(regs := old(chip).regs[CommandReg as int := SoftReset], fifo := [], irqQueue := [])
    {
      SoftResetEffect(card, chip);
      Wreg(CommandReg, SoftReset);
    }

    /**
     * antenna_on: with on set, the test of the TX1/TX2 enable bits is a Python
     * complement and always true, so the bits are always set; otherwise they are cleared.
     */
    method AntennaOn(on: bool)
      requires Valid()
      modifies this
      ensures Valid()
      ensures chip == old(chip).(regs := old(chip).regs[TxControlReg as int :=
        if on then Reg(old(chip), TxControlReg) | 0x03 else Reg(old(chip), TxControlReg) & !0x03])
    {
      var enable := false;
      if on {
        ReadOrdinary(chip, TxControlReg);
        var v := Rreg(TxControlReg);
        AntennaTestAlwaysTrue(v);
        enable := PyInvert((v & 0x03) as int) != 0;
      }
      FlagsOnPlainRegister(card, chip, TxControlReg, 0x03);
      if enable {
        SFlags(TxControlReg, 0x03);
      } else {
        CFlags(TxControlReg, 0x03);
      }
    }

    /** Soft reset, timer and modulation set-up, antenna on (init). */
    method Init()
      requires Valid()
      modifies this
      ensures Valid() && Configured(chip)
      ensures chip.frames == old(chip).frames && chip.fifo == [] && chip.irqQueue == []
    {
      Reset();
      WritePlain(card, chip, TModeReg, 0x8D);
      Wreg(TModeReg, 0x8D);
      WritePlain(card, chip, TPrescalerReg, 0x3E);
      Wreg(TPrescalerReg, 0x3E);
      WritePlain(card, chip, TReloadRegL, 30);
      Wreg(TReloadRegL, 30);
      WritePlain(card, chip, TReloadRegH, 0);
      Wreg(TReloadRegH, 0);
      WritePlain(card, chip, TxASKReg, 0x40);
      Wreg(TxASKReg, 0x40);
      WritePlain(card, chip, ModeReg, 0x3D);
      Wreg(ModeReg, 0x3D);
      ghost var c := chip;
      AntennaOn(true);
      assert (Reg(c, TxControlReg) | 0x03) & 0x03 == 0x03;
    }

    /** Sets TxLastBits without starting a transmission. */
    method SetFraming(v: Byte)
      requires Valid() && v & 0x80 == 0
      modifies this
      ensures Valid()
      ensures chip == old(chip).(regs := old(chip).regs[BitFramingReg as int := v])
    {
      WriteFramingEffect(card, chip, v);
      Wreg(BitFramingReg, v);
    }

    /** REQA/WUPA as a 7-bit frame; succeeds only on an OK answer of exactly 0x10 bits (request). */
    method Request(mode: Byte) returns (stat: Status, bits: int)
      requires Valid()
      modifies this
      ensures Valid() && TxBits(chip) == 0x07
      ensures var f := Frame(Transceive, [mode], 0x07);
        var t := Outcome(card, old(chip).frames, f);
        && chip.frames == old(chip).frames + [f]
        && (stat == OK <==> t.stat == OK && t.bits == 0x10)
        && (stat == OK || stat == ERR)
        && bits == t.bits
    {
      SetFraming(0x07);
      var s, recv, b := ToCard(Transceive, [mode]);
      if (s != OK) || (b != 0x10) {
        s := ERR;
      }
      stat, bits := s, b;
    }

    /** A 7-bit request that also hands back the raw answer (requestRawAnswer). */
    method RequestRawAnswer(mode: Byte) returns (stat: Status, recv: seq<Byte>, bits: int)
      requires Valid()
      modifies this
      ensures Valid() && TxBits(chip) == 0x07
      ensures var f := Frame(Transceive, [mode], 0x07);
        var t := Outcome(card, old(chip).frames, f);
        && chip.frames == old(chip).frames + [f]
        && (stat == OK <==> t.stat == OK)
        && (stat == OK || stat == ERR)
        && recv == t.recv && bits == t.bits
      ensures stat == OK ==> |recv| >= 1
    {
      SetFraming(0x07);
      stat, recv, bits := ToCard(Transceive, [mode]);
      if stat != OK {
        stat := ERR;
      }
    }

    /** Cascade-level-1 anticollision: OK only for five bytes whose fifth is the BCC of the first four (anticoll). */
    method Anticoll() returns (stat: Status, recv: seq<Byte>)
      requires Valid()
      modifies this
      ensures Valid() && TxBits(chip) == 0x00
      ensures var f := Frame(Transceive, [SelectCascade1, 0x20], 0x00);
        var t := Outcome(card, old(chip).frames, f);
        && chip.frames == old(chip).frames + [f]
        && recv == t.recv
        && (stat == OK <==> t.stat == OK && |t.recv| == 5 && Bcc(t.recv) == t.recv[4])
        && (t.stat != OK ==> stat == t.stat)
        && (stat != OK && t.stat == OK ==> stat == ERR)
    {
      var serChk: Byte := 0;
      SetFraming(0x00);
      var bits;
      stat, recv, bits := ToCard(Transceive, [SelectCascade1, 0x20]);
      if stat == OK {
        if |recv| == 5 {
          for k := 0 to 4
            invariant serChk == XorFold(recv[..k])
          {
            assert recv[..k + 1][..k] == recv[..k];
            serChk := serChk ^ recv[k];
          }
          XorFoldFirstFour(recv);
          if serChk != recv[4] {
            stat := ERR;
          }
        } else {
          stat := ERR;
        }
      }
    }

    /** HLTA with CRC; OK only on 0x18 bits (halt). */
    method Halt() returns (stat: Status)
      requires Valid()
      modifies this
      ensures Valid() && TxBits(chip) == TxBits(old(chip))
      ensures var f := Frame(Transceive, [PiccHalt, 0x00] + CrcA([PiccHalt, 0x00]), TxBits(old(chip)));
        var t := Outcome(card, old(chip).frames, f);
        && chip.frames == old(chip).frames + [f]
        && (stat == OK <==> t.stat == OK && t.bits == 0x18)
        && (stat == OK || stat == ERR)
    {
      var buf := [PiccHalt, 0x00];
      var crc := Crc(buf);
      buf := buf + crc;
      var s, recv, bits := ToCard(Transceive, buf);
      stat := if s == OK && bits == 0x18 then OK else ERR;
    }

    /** WUPA sent with whatever TxLastBits is set; OK only on 0x18 bits (wake). */
    method Wake() returns (stat: Status)
      requires Valid()
      modifies this
      ensures Valid() && TxBits(chip) == TxBits(old(chip))
      ensures var f := Frame(Transceive, [PiccWupa], TxBits(old(chip)));
        var t := Outcome(card, old(chip).frames, f);
        && chip.frames == old(chip).frames + [f]
        && (stat == OK <==> t.stat == OK && t.bits == 0x18)
        && (stat == OK || stat == ERR)
    {
      var s, recv, bits := ToCard(Transceive, [PiccWupa]);
      stat := if s == OK && bits == 0x18 then OK else ERR;
    }

    /** SELECT cascade level 1 with up to five UID bytes and CRC; OK only on 0x18 bits (select_tag). */
    method SelectTag(ser: seq<Byte>) returns (stat: Status)
      requires Valid()
      modifies this
      ensures Valid() && TxBits(chip) == TxBits(old(chip))
      ensures var buf := [SelectCascade1, 0x70] + Take(ser, 5);
        var f := Frame(Transceive, buf + CrcA(buf), TxBits(old(chip)));
        var t := Outcome(card, old(chip).frames, f);
        && chip.frames == old(chip).frames + [f]
        && (stat == OK <==> t.stat == OK && t.bits == 0x18)
        && (stat == OK || stat == ERR)
    {
      var buf := [SelectCascade1, 0x70] + Take(ser, 5);
      var crc := Crc(buf);
      buf := buf + crc;
      var s, recv, bits := ToCard(Transceive, buf);
      stat := if s == OK && bits == 0x18 then OK else ERR;
    }

    /** MIFARE Classic authentication of a block with a key and the first four UID bytes (auth). */
    method Auth(mode: Byte, addr: Byte, sect: seq<Byte>, ser: seq<Byte>) returns (stat: Status)
      requires Valid()
      modifies this
      ensures Valid() && TxBits(chip) == TxBits(old(chip))
      ensures var f := Frame(MFAuthent, Take([mode, addr] + sect + Take(ser, 4), FifoSize), TxBits(old(chip)));
        && chip.frames == old(chip).frames + [f]
        && stat == Outcome(card, old(chip).frames, f).stat
    {
      var recv, bits;
      stat, recv, bits := ToCard(MFAuthent, [mode, addr] + sect + Take(ser, 4));
    }

    /** Clears MFCrypto1On in Status2Reg and nothing else (stop_crypto1). */
    method StopCrypto1()
      requires Valid()
      modifies this
      ensures Valid()
      ensures chip == old(chip).(regs := old(chip).regs[Status2Reg as int := Reg(old(chip), Status2Reg) & !0x08])
    {
      FlagsOnPlainRegister(card, chip, Status2Reg, 0x08);
      CFlags(Status2Reg, 0x08);
    }

    /** MIFARE READ of a block: the received bytes on OK, None otherwise (read). */
    method Read(addr: Byte) returns (data: Option<seq<Byte>>)
      requires Valid()
      modifies this
      ensures Valid() && TxBits(chip) == TxBits(old(chip))
      ensures var f := ReadFrame(addr, TxBits(old(chip)));
        var t := Outcome(card, old(chip).frames, f);
        && chip.frames == old(chip).frames + [f]
        && data == (if t.stat == OK then Some(t.recv) else None)
    {
      var buf := [PiccRead, addr];
      var crc := Crc(buf);
      buf := buf + crc;
      var stat, recv, bits := ToCard(Transceive, buf);
      data := if stat == OK then Some(recv) else None;
    }

    /**
     * Two-phase MIFARE WRITE (write): the command frame, then, only if the card
     * acknowledged it, the first 16 bytes of data with CRC. Data shorter than 16
     * bytes raises once the acknowledgement is in (raised), before phase two.
     */
    method Write(addr: Byte, data: seq<Byte>) returns (stat: Status, raised: bool)
      requires Valid()
      modifies this
      ensures Valid() && TxBits(chip) == TxBits(old(chip))
      ensures var (sent, raises) := WriteFrames(card, old(chip).frames, TxBits(old(chip)), addr, data);
        && chip.frames == old(chip).frames + sent
        && raised == raises
        && (!raised ==> stat == WriteStatus(card, old(chip).frames, TxBits(old(chip)), addr, data))
    {
      ghost var tx := TxBits(chip);
      var buf := [PiccWrite, addr];
      var crc := Crc(buf);
      buf := buf + crc;
      var s, recv, bits := ToCard(Transceive, buf);
      raised := false;
      if !(s == OK) || !(bits == 4) || !((recv[0] & 0x0F) == 0x0A) {
        stat := ERR;
      } else {
        stat, raised := WriteData(data);
      }
    }

    /**
     * The second half of write: the first 16 bytes of data (an IndexError
     * when there are fewer) with their CRC, acknowledged like the command.
     */
    method WriteData(data: seq<Byte>) returns (stat: Status, raised: bool)
      requires Valid()
      modifies this
      ensures Valid() && TxBits(chip) == TxBits(old(chip))
      ensures |data| < 16 ==> raised && chip.frames == old(chip).frames
      ensures |data| >= 16 ==>
        var f := WriteDataFrame(data, TxBits(old(chip)));
        && !raised && chip.frames == old(chip).frames + [f]
        && stat == (if Acked(Outcome(card, old(chip).frames, f)) then OK else ERR)
    {
      var buf := [];
      for i := 0 to 16
        invariant i <= |data| && buf == data[..i]
        invariant chip == old(chip)
      {
        if i >= |data| {
          raised, stat := true, ERR;
          return;
        }
        buf := buf + [data[i]];
      }
      var crc := Crc(buf);
      buf := buf + crc;
      var s, recv, bits := ToCard(Transceive, buf);
      raised := false;
      stat := if !(s == OK) || !(bits == 4) || !((recv[0] & 0x0F) == 0x0A) then ERR else s;
    }

    /**
     * Clone-card probe (checkChinaUID): HLTA, then the 7-bit magic request 0x40;
     * true iff that is OK and its first byte is 0x0A. WUPA is sent in every case.
     */
    method CheckChinaUID() returns (answer: bool)
      requires Valid()
      modifies this
      ensures Valid() && TxBits(chip) == 0x07
      ensures |chip.frames| == |old(chip).frames| + 3 && chip.frames[..|old(chip).frames|] == old(chip).frames
      ensures chip.frames[|old(chip).frames|] == Frame(Transceive, [PiccHalt, 0x00] + CrcA([PiccHalt, 0x00]), TxBits(old(chip)))
      ensures chip.frames[|old(chip).frames| + 1] == Frame(Transceive, [ChinaMagic], 0x07)
      ensures chip.frames[|old(chip).frames| + 2] == Frame(Transceive, [PiccWupa], 0x07)
      ensures var t := Answer(card, chip.frames, |old(chip).frames| + 1);
        answer <==> t.stat == OK && t.recv[0] == 0x0A
    {
      answer := false;
      var h := Halt();
      ghost var halted := chip.frames;
      var stat, data, bits := RequestRawAnswer(ChinaMagic);
      if stat == OK && data[0] == 0x0A {
        answer := true;
      }
      var w := Wake();
      assert chip.frames[..|halted| + 1] == halted + [Frame(Transceive, [ChinaMagic], 0x07)];
      assert chip.frames[..|halted|] == halted;
    }

    /** Writes key A, the locked access bytes and key B to the trailer of sector (setKey). */
    method SetKey(sector: int, keyA: seq<Byte>, keyB: seq<Byte>) returns (raised: bool)
      requires Valid()
      modifies this
      ensures Valid() && TxBits(chip) == TxBits(old(chip))
      ensures !(-16 <= sector < 16) ==> raised && chip == old(chip)
      ensures -16 <= sector < 16 ==>
        var (sent, raises) := WriteFrames(card, old(chip).frames, TxBits(old(chip)),
                                          TrailerAddress(sector), Trailer(keyA, LockedAccess, keyB));
        chip.frames == old(chip).frames + sent && raised == raises
    {
      var key := TrailerKey(keyA, LockedAccess, keyB);
      raised := WriteTrailer(sector, key);
    }

    /** Writes key A, the transport access bytes and key B to the trailer of sector (reSetKeyOpen). */
    method ReSetKeyOpen(sector: int, keyA: seq<Byte>, keyB: seq<Byte>) returns (raised: bool)
      requires Valid()
      modifies this
      ensures Valid() && TxBits(chip) == TxBits(old(chip))
      ensures !(-16 <= sector < 16) ==> raised && chip == old(chip)
      ensures -16 <= sector < 16 ==>
        var (sent, raises) := WriteFrames(card, old(chip).frames, TxBits(old(chip)),
                                          TrailerAddress(sector), Trailer(keyA, OpenAccess, keyB));
        chip.frames == old(chip).frames + sent && raised == raises
    {
      var key := TrailerKey(keyA, OpenAccess, keyB);
      raised := WriteTrailer(sector, key);
    }

    /** Looks the trailer block up in the sector table (a Python list index) and writes it. */
    method WriteTrailer(sector: int, key: seq<Byte>) returns (raised: bool)
      requires Valid()
      modifies this
      ensures Valid() && TxBits(chip) == TxBits(old(chip))
      ensures !(-16 <= sector < 16) ==> raised && chip == old(chip)
      ensures -16 <= sector < 16 ==>
        var (sent, raises) := WriteFrames(card, old(chip).frames, TxBits(old(chip)), TrailerAddress(sector), key);
        chip.frames == old(chip).frames + sent && raised == raises
    {
      if !(-16 <= sector < 16) {
        return true;
      }
      var stat;
      stat, raised := Write(SectorKeyTable[if sector < 0 then sector + 16 else sector], key);
    }
  }
}
