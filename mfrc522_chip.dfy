/**
 * The MFRC522 reader chip as its driver sees it across the SPI bus: a file
 * of 64 eight-bit registers, the 64-byte FIFO buffer, the interrupt-request
 * register that the chip raises while a command runs, and the card in the
 * field, which answers every frame the chip transmits.
 *
 * The card is an abstract responder: given the frames sent so far and the
 * new frame it yields the values the chip then shows in ComIrqReg (one per
 * successive read), ErrorReg, ControlReg (RxLastBits) and the FIFO.
 */
module Mfrc522Chip {

  type Byte = bv8

  // Registers used by the driver (MFRC522 datasheet, section 9.2).
  const CommandReg: Byte := 0x01
  const ComIEnReg: Byte := 0x02
  const ComIrqReg: Byte := 0x04
  const DivIrqReg: Byte := 0x05
  const ErrorReg: Byte := 0x06
  const Status2Reg: Byte := 0x08
  const FIFODataReg: Byte := 0x09
  const FIFOLevelReg: Byte := 0x0A
  const ControlReg: Byte := 0x0C
  const BitFramingReg: Byte := 0x0D
  const ModeReg: Byte := 0x11
  const TxControlReg: Byte := 0x14
  const TxASKReg: Byte := 0x15
  const CRCResultRegH: Byte := 0x21
  const CRCResultRegL: Byte := 0x22
  const TModeReg: Byte := 0x2A
  const TPrescalerReg: Byte := 0x2B
  const TReloadRegH: Byte := 0x2C
  const TReloadRegL: Byte := 0x2D

  // Chip commands (datasheet, section 10.3).
  const Idle: Byte := 0x00
  const CalcCRC: Byte := 0x03
  const Transceive: Byte := 0x0C
  const MFAuthent: Byte := 0x0E
  const SoftReset: Byte := 0x0F

  const RegisterCount := 64
  const FifoSize := 64

  /* ---------------- SPI address byte (datasheet, section 8.1.2.3) ---------------- */

  /** Address byte of a register write: bit 7 clear, register in bits 6..1, bit 0 clear. */
  function WriteAddress(reg: Byte): (a: Byte)
    ensures a & 0x81 == 0
  {
    (reg << 1) & 0x7E
  }

  /** Address byte of a register read: the write address with bit 7 set. */
  function ReadAddress(reg: Byte): (a: Byte)
    ensures a & 0x80 == 0x80 && a & 0x01 == 0
  {
    ((reg << 1) & 0x7E) | 0x80
  }

  /** The register the chip selects for an address byte. */
  function AddressedRegister(addr: Byte): (reg: Byte)
    ensures reg < 64
  {
    (addr >> 1) & 0x3F
  }

  /** The chip treats an address byte with bit 7 set as a read. */
  predicate IsReadAddress(addr: Byte)
  {
    addr & 0x80 != 0
  }

  /** Both encodings decode back to the register, and only bit 7 tells them apart. */
  lemma AddressRoundTrip(reg: Byte)
    ensures AddressedRegister(WriteAddress(reg)) == reg & 0x3F && !IsReadAddress(WriteAddress(reg))
    ensures AddressedRegister(ReadAddress(reg)) == reg & 0x3F && IsReadAddress(ReadAddress(reg))
    ensures ReadAddress(reg) ^ WriteAddress(reg) == 0x80
    ensures reg < 64 ==> AddressedRegister(WriteAddress(reg)) == reg && AddressedRegister(ReadAddress(reg)) == reg
  {
  }

  /* ---------------- CRC coprocessor (CRC_A of ISO/IEC 14443-3, annex B) ---------------- */

  function CrcStep(crc: bv16, b: Byte): bv16
  {
    var t: Byte := b ^ ((crc & 0xFF) as Byte);
    var u: Byte := t ^ (t << 4);
    var w := u as bv16;
    (crc >> 8) ^ (w << 8) ^ (w << 3) ^ (w >> 4)
  }

  function CrcFold(crc: bv16, data: seq<Byte>): bv16
    decreases |data|
  {
    if data == [] then crc else CrcFold(CrcStep(crc, data[0]), data[1..])
  }

  /** CRC_A with preset 0x6363 (ModeReg 0x3D), least significant byte first. */
  function CrcA(data: seq<Byte>): (r: seq<Byte>)
    ensures |r| == 2
  {
    var crc := CrcFold(0x6363, data);
    [(crc & 0xFF) as Byte, (crc >> 8) as Byte]
  }

  /* ---------------- chip state ---------------- */

  /** A frame the chip transmits: the command that sent it, the FIFO bytes and the bits of the last byte. */
  datatype Frame = Frame(command: Byte, data: seq<Byte>, txLastBits: Byte)

  /** What the card and the chip's receiver produce for one frame. */
  datatype Reply = Reply(irqs: seq<Byte>, error: Byte, data: seq<Byte>, rxLastBits: Byte)

  /** The card in the field: its answer may depend on every frame sent before. */
  type Responder = (seq<Frame>, Frame) -> Reply

  /**
   * regs: the register file; fifo: the FIFO buffer; irqQueue: the ComIrqReg values the
   * running command still has to show; irqReads: how many times ComIrqReg was read;
   * frames: every frame transmitted so far.
   */
  datatype Chip = Chip(regs: seq<Byte>, fifo: seq<Byte>, irqQueue: seq<Byte>, irqReads: nat, frames: seq<Frame>)

  predicate Wellformed(c: Chip)
  {
    |c.regs| == RegisterCount && |c.fifo| <= FifoSize
  }

  function Reg(c: Chip, r: Byte): Byte
    requires |c.regs| == RegisterCount && r < 64
  {
    c.regs[r as int]
  }

  function SetReg(c: Chip, r: Byte, v: Byte): (c': Chip)
    requires |c.regs| == RegisterCount && r < 64
    ensures |c'.regs| == RegisterCount
  {
    c.(regs := c.regs[r as int := v])
  }

  /** The first n bytes of s, or all of them. */
  function Take(s: seq<Byte>, n: nat): (r: seq<Byte>)
    ensures |r| <= n && r <= s
    ensures |s| <= n ==> r == s
  {
    if |s| <= n then s else s[..n]
  }

  /** s without its first k bytes, or nothing. */
  function Drop(s: seq<Byte>, k: nat): (r: seq<Byte>)
    ensures k <= |s| ==> r == s[k..]
    ensures |s| <= k ==> r == []
  {
    if k <= |s| then s[k..] else []
  }

  /** Two register files agree everywhere outside except. */
  predicate RegsAgreeExcept(c0: Chip, c1: Chip, except: set<int>)
    requires |c0.regs| == RegisterCount && |c1.regs| == RegisterCount
  {
    forall i :: 0 <= i < RegisterCount && i !in except ==> c1.regs[i] == c0.regs[i]
  }

  /** TxLastBits: how many bits of the last byte a frame sends (0 means all eight). */
  function TxBits(c: Chip): Byte
    requires |c.regs| == RegisterCount
  {
    Reg(c, BitFramingReg) & 0x07
  }

  /** The chip transmits frame f; the card's reply lands in the IRQ, error and control registers and the FIFO. */
  function Start(card: Responder, c: Chip, f: Frame): (c': Chip)
    requires |c.regs| == RegisterCount
    ensures Wellformed(c')
  {
    var reply := card(c.frames, f);
    c.(regs := c.regs[ComIrqReg as int := 0][ErrorReg as int := reply.error][ControlReg as int := reply.rxLastBits],
       fifo := Take(reply.data, FifoSize), irqQueue := reply.irqs, frames := c.frames + [f])
  }

  /** Registers with no side effect: a write stores the value, a read returns it. */
  predicate Plain(r: Byte)
  {
    r < 64 && r != CommandReg && r != ComIrqReg && r != FIFODataReg && r != FIFOLevelReg && r != BitFramingReg
  }

  /** Effect of writing v to register r. */
  function WriteReg(card: Responder, c: Chip, r: Byte, v: Byte): (c': Chip)
    requires Wellformed(c) && r < 64
    ensures Wellformed(c')
  {
    if r == FIFODataReg then
      if |c.fifo| < FifoSize then c.(fifo := c.fifo + [v]) else c
    else if r == FIFOLevelReg then
      if v & 0x80 != 0 then c.(fifo := []) else c
    else if r == CommandReg then
      var c1 := SetReg(c, CommandReg, v);
      if v & 0x0F == MFAuthent then
        Start(card, c1, Frame(MFAuthent, c.fifo, TxBits(c)))
      else if v & 0x0F == CalcCRC then
        var crc := CrcA(c.fifo);
        c1.(regs := c1.regs[CRCResultRegL as int := crc[0]][CRCResultRegH as int := crc[1]]
                          [DivIrqReg as int := Reg(c, DivIrqReg) | 0x04],
            fifo := [])
      else if v & 0x0F == SoftReset then
        c1.(fifo := [], irqQueue := [])
      else c1
    else if r == BitFramingReg then
      var c1 := SetReg(c, BitFramingReg, v);
      if v & 0x80 != 0 && Reg(c, CommandReg) & 0x0F == Transceive then
        Start(card, c1, Frame(Transceive, c.fifo, v & 0x07))
      else c1
    else
      SetReg(c, r, v)
  }

  /** Effect and value of reading register r. */
  function ReadReg(c: Chip, r: Byte): (res: (Byte, Chip))
    requires Wellformed(c) && r < 64
    ensures Wellformed(res.1) && res.1.frames == c.frames
  {
    if r == FIFODataReg then
      if c.fifo != [] then (c.fifo[0], c.(fifo := c.fifo[1..])) else (0, c)
    else if r == FIFOLevelReg then
      (|c.fifo| as Byte, c)
    else if r == ComIrqReg then
      if c.irqQueue != [] then
        (c.irqQueue[0], SetReg(c, ComIrqReg, c.irqQueue[0]).(irqQueue := c.irqQueue[1..], irqReads := c.irqReads + 1))
      else
        (Reg(c, ComIrqReg), c.(irqReads := c.irqReads + 1))
    else
      (Reg(c, r), c)
  }

  /** A read-modify-write that ors mask into register r (_sflags). */
  function SetFlags(card: Responder, c: Chip, r: Byte, mask: Byte): Chip
    requires Wellformed(c) && r < 64
  {
    var (v, c1) := ReadReg(c, r);
    WriteReg(card, c1, r, v | mask)
  }

  /** A read-modify-write that clears the bits of mask in register r (_cflags). */
  function ClearFlags(card: Responder, c: Chip, r: Byte, mask: Byte): Chip
    requires Wellformed(c) && r < 64
  {
    var (v, c1) := ReadReg(c, r);
    WriteReg(card, c1, r, v & !mask)
  }

  /** On a plain register the flag helpers change that register alone, to old | mask and old & ~mask. */
  lemma FlagsOnPlainRegister(card: Responder, c: Chip, r: Byte, mask: Byte)
    requires Wellformed(c) && Plain(r)
    ensures SetFlags(card, c, r, mask) == c.(regs := c.regs[r as int := c.regs[r as int] | mask])
    ensures ClearFlags(card, c, r, mask) == c.(regs := c.regs[r as int := c.regs[r as int] & !mask])
  {
  }

  /** Writing a plain register only stores the value. */
  lemma WritePlain(card: Responder, c: Chip, r: Byte, v: Byte)
    requires Wellformed(c) && Plain(r)
    ensures WriteReg(card, c, r, v) == SetReg(c, r, v)
  {
  }

  /** Reading a register other than ComIrqReg and the FIFO registers changes nothing. */
  lemma ReadOrdinary(c: Chip, r: Byte)
    requires Wellformed(c) && r < 64 && r != ComIrqReg && r != FIFODataReg && r != FIFOLevelReg
    ensures ReadReg(c, r) == (Reg(c, r), c)
  {
  }

  /** FIFOLevelReg shows the number of bytes in the FIFO. */
  lemma FifoLevelRead(c: Chip)
    requires Wellformed(c)
    ensures ReadReg(c, FIFOLevelReg) == (|c.fifo| as Byte, c)
    ensures (|c.fifo| as Byte) as int == |c.fifo|
  {
    LevelFits(|c.fifo|);
  }

  /** A FIFO level, at most 64, survives the trip through a register byte. */
  lemma LevelFits(n: nat)
    requires n <= FifoSize
    ensures (n as Byte) as int == n
  {
    if n < 16 {
    } else if n < 32 {
    } else if n < 48 {
    } else {
    }
  }

  /** Setting FlushBuffer empties the FIFO and changes nothing else. */
  lemma FlushEmptiesFifo(card: Responder, c: Chip)
    requires Wellformed(c)
    ensures SetFlags(card, c, FIFOLevelReg, 0x80) == c.(fifo := [])
  {
    var v := |c.fifo| as Byte;
    assert (v | 0x80) & 0x80 != 0;
  }

  /** Clearing Set1 in ComIrqReg: one read of the register, then a plain store. */
  lemma ClearIrqEffect(card: Responder, c: Chip)
    requires Wellformed(c)
    ensures var c' := ClearFlags(card, c, ComIrqReg, 0x80);
      && Wellformed(c') && c'.fifo == c.fifo && c'.frames == c.frames
      && c'.irqReads == c.irqReads + 1
      && RegsAgreeExcept(c, c', {4})
  {
  }

  /** Writing a command to CommandReg: MFAuthent transmits the FIFO at once; Idle and Transceive only store. */
  lemma WriteCommandEffect(card: Responder, c: Chip, cmd: Byte)
    requires Wellformed(c) && (cmd == Idle || cmd == Transceive || cmd == MFAuthent)
    ensures WriteReg(card, c, CommandReg, cmd) ==
      if cmd == MFAuthent then Start(card, SetReg(c, CommandReg, cmd), Frame(MFAuthent, c.fifo, TxBits(c)))
      else SetReg(c, CommandReg, cmd)
  {
  }

  /** Setting StartSend while CommandReg holds Transceive transmits the FIFO. */
  lemma StartSendEffect(card: Responder, c: Chip)
    requires Wellformed(c) && Reg(c, CommandReg) & 0x0F == Transceive
    ensures SetFlags(card, c, BitFramingReg, 0x80) ==
      Start(card, SetReg(c, BitFramingReg, Reg(c, BitFramingReg) | 0x80), Frame(Transceive, c.fifo, TxBits(c)))
  {
    var v := Reg(c, BitFramingReg);
    assert (v | 0x80) & 0x07 == v & 0x07 && (v | 0x80) & 0x80 != 0;
  }

  /** Clearing StartSend only stores the register. */
  lemma StopSendEffect(card: Responder, c: Chip)
    requires Wellformed(c)
    ensures ClearFlags(card, c, BitFramingReg, 0x80) == SetReg(c, BitFramingReg, Reg(c, BitFramingReg) & 0x7F)
  {
    var v := Reg(c, BitFramingReg);
    assert (v & !0x80) & 0x80 == 0 && v & !0x80 == v & 0x7F;
  }

  /** Writing BitFramingReg without StartSend only stores the value. */
  lemma WriteFramingEffect(card: Responder, c: Chip, v: Byte)
    requires Wellformed(c) && v & 0x80 == 0
    ensures WriteReg(card, c, BitFramingReg, v) == SetReg(c, BitFramingReg, v)
  {
  }

  /** CalcCRC: the CRC of the FIFO lands in CRCResultRegL/H, CRCIRq is set and the FIFO is consumed. */
  lemma CalcCrcEffect(card: Responder, c: Chip)
    requires Wellformed(c)
    ensures var c' := WriteReg(card, c, CommandReg, CalcCRC);
      && Wellformed(c') && c'.fifo == [] && c'.frames == c.frames
      && c'.irqQueue == c.irqQueue && c'.irqReads == c.irqReads
      && [Reg(c', CRCResultRegL), Reg(c', CRCResultRegH)] == CrcA(c.fifo)
      && Reg(c', DivIrqReg) & 0x04 != 0 && Reg(c', CommandReg) == CalcCRC
      && RegsAgreeExcept(c, c', {1, 5, 0x21, 0x22})
  {
    var crc := CrcA(c.fifo);
    assert (Reg(c, DivIrqReg) | 0x04) & 0x04 != 0;
  }

  /** SoftReset stops any command and empties the FIFO. */
  lemma SoftResetEffect(card: Responder, c: Chip)
    requires Wellformed(c)
    ensures WriteReg(card, c, CommandReg, SoftReset) == SetReg(c, CommandReg, SoftReset).(fifo := [], irqQueue := [])
  {
  }

  /* ---------------- outcome of one command (_tocard) ---------------- */

  datatype Status = OK | NOTAGERR | ERR

  /** What _tocard returns: status, received bytes and received bit count. */
  datatype Transfer = Transfer(stat: Status, recv: seq<Byte>, bits: int)

  function IrqEnable(cmd: Byte): Byte
  {
    if cmd == MFAuthent then 0x12 else if cmd == Transceive then 0x77 else 0x00
  }

  function IrqWait(cmd: Byte): Byte
  {
    if cmd == MFAuthent then 0x10 else if cmd == Transceive then 0x30 else 0x00
  }

  /** The poll counter of _tocard starts at 500. */
  const PollLimit := 500

  /** The value of ComIrqReg at its k-th read after a command started. */
  function IrqAt(irqs: seq<Byte>, k: nat): Byte
  {
    if k < |irqs| then irqs[k] else if irqs != [] then irqs[|irqs| - 1] else 0
  }

  /** How many reads the poll loop makes when it has already made k without stopping. */
  function PollReads(irqs: seq<Byte>, wait: Byte, k: nat): (m: nat)
    requires k < PollLimit
    ensures k < m <= PollLimit
    decreases PollLimit - k
  {
    if k == PollLimit - 1 || IrqAt(irqs, k) & wait != 0 then k + 1 else PollReads(irqs, wait, k + 1)
  }

  /** The poll stops at the first read that shows a bit of wait, and never after 500 reads. */
  lemma {:induction false} PollReadsStopsAtFirstHit(irqs: seq<Byte>, wait: Byte, k: nat)
    requires k < PollLimit
    ensures var m := PollReads(irqs, wait, k);
      && (forall j :: k <= j < m - 1 ==> IrqAt(irqs, j) & wait == 0)
      && (m < PollLimit ==> IrqAt(irqs, m - 1) & wait != 0)
    decreases PollLimit - k
  {
    if k < PollLimit - 1 && IrqAt(irqs, k) & wait == 0 {
      PollReadsStopsAtFirstHit(irqs, wait, k + 1);
    }
  }

  /** Conversely, a read count with no earlier hit and a hit (or the limit) at its end is the poll's. */
  lemma {:induction false} PollReadsIs(irqs: seq<Byte>, wait: Byte, k: nat, m: nat)
    requires k < m <= PollLimit
    requires forall j :: k <= j < m - 1 ==> IrqAt(irqs, j) & wait == 0
    requires m < PollLimit ==> IrqAt(irqs, m - 1) & wait != 0
    ensures PollReads(irqs, wait, k) == m
    decreases m - k
  {
    if k < m - 1 {
      PollReadsIs(irqs, wait, k + 1, m);
    }
  }

  /** A timer interrupt alone never ends the poll early unless the command waits for it. */
  lemma TimerBitDoesNotStopPoll(irqs: seq<Byte>, cmd: Byte)
    requires cmd == Transceive || cmd == MFAuthent
    requires forall j :: 0 <= j < PollLimit ==> IrqAt(irqs, j) & IrqWait(cmd) == 0
    ensures PollReads(irqs, IrqWait(cmd), 0) == PollLimit
  {
    PollReadsStopsAtFirstHit(irqs, IrqWait(cmd), 0);
  }

  /** The chip after k reads of ComIrqReg since a command started with schedule irqs. */
  function AfterIrqReads(c: Chip, irqs: seq<Byte>, k: nat): (c': Chip)
    requires |c.regs| == RegisterCount
    ensures Wellformed(c') <==> Wellformed(c)
  {
    c.(regs := c.regs[ComIrqReg as int := if k == 0 then 0 else IrqAt(irqs, k - 1)],
       irqQueue := Drop(irqs, k), irqReads := c.irqReads + k)
  }

  /** The k-th read of ComIrqReg shows IrqAt(irqs, k): a queued value, else the last one shown. */
  lemma ReadIrqStep(c: Chip, irqs: seq<Byte>, k: nat)
    requires Wellformed(c)
    ensures ReadReg(AfterIrqReads(c, irqs, k), ComIrqReg) == (IrqAt(irqs, k), AfterIrqReads(c, irqs, k + 1))
  {
    var c1 := AfterIrqReads(c, irqs, k);
    var c2 := AfterIrqReads(c, irqs, k + 1);
    if k < |irqs| {
      assert c1.irqQueue == irqs[k..];
      assert c1.irqQueue[1..] == Drop(irqs, k + 1);
      assert c1.regs[ComIrqReg as int := irqs[k]] == c2.regs;
    } else {
      assert c1.irqQueue == [];
      assert IrqAt(irqs, k) == Reg(c1, ComIrqReg);
      assert c1.regs == c2.regs;
    }
  }

  /** Bytes received: the FIFO level clamped to 1..16 (_tocard lines 118-121). */
  function Clamp(level: nat): (n: int)
    ensures 1 <= n <= 16
    ensures 1 <= level <= 16 ==> n == level
  {
    if level == 0 then 1 else if level > 16 then 16 else level
  }

  /** k successive reads of FIFODataReg: the FIFO's bytes, then zeros once it is empty. */
  function Pops(f: seq<Byte>, k: nat): (r: seq<Byte>)
    ensures |r| == k
    ensures k <= |f| ==> r == f[..k]
  {
    seq(k, j requires 0 <= j < k => if j < |f| then f[j] else 0)
  }

  /** Received bit count from FIFO level n and RxLastBits (_tocard lines 113-116). */
  function ReceivedBits(level: int, lbits: Byte): int
  {
    if lbits & 0x07 != 0 then (level - 1) * 8 + (lbits & 0x07) as int else level * 8
  }

  /** The result _tocard returns for command cmd when the card answers with reply. */
  function Exchange(cmd: Byte, reply: Reply): (t: Transfer)
    ensures t.stat != OK ==> t.recv == [] && t.bits == 0
    ensures t.stat != ERR <==>
      PollReads(reply.irqs, IrqWait(cmd), 0) < PollLimit && reply.error & 0x1B == 0
    ensures t.stat == NOTAGERR <==> (t.stat != ERR &&
      IrqAt(reply.irqs, PollReads(reply.irqs, IrqWait(cmd), 0) - 1) & IrqEnable(cmd) & 0x01 != 0)
    ensures t.stat == OK && cmd == Transceive ==>
      && |t.recv| == Clamp(|Take(reply.data, FifoSize)|)
      && t.recv <= Take(reply.data, FifoSize) + [0]
      && t.bits == ReceivedBits(|Take(reply.data, FifoSize)|, reply.rxLastBits)
    ensures cmd != Transceive ==> t.recv == [] && t.bits == 0
  {
    var polls := PollReads(reply.irqs, IrqWait(cmd), 0);
    if polls == PollLimit then Transfer(ERR, [], 0)
    else
      var n := IrqAt(reply.irqs, polls - 1);
      if reply.error & 0x1B != 0 then Transfer(ERR, [], 0)
      else if n & IrqEnable(cmd) & 0x01 != 0 then Transfer(NOTAGERR, [], 0)
      else if cmd == Transceive then
        var fifo := Take(reply.data, FifoSize);
        Transfer(OK, Pops(fifo, Clamp(|fifo|)), ReceivedBits(|fifo|, reply.rxLastBits))
      else Transfer(OK, [], 0)
  }

  /** The result of the k-th frame in a log of transmitted frames. */
  function Answer(card: Responder, frames: seq<Frame>, k: nat): Transfer
    requires k < |frames|
  {
    Exchange(frames[k].command, card(frames[..k], frames[k]))
  }
}
