/**
 * The door controller's main loop (ESP32 side): the status light, the card
 * provisioning and wipe layouts, the long-tap door-command classifier, the two
 * keypad code-entry loops and the stage-by-stage dispatch over the server's
 * replies.
 *
 * The reader is an abstract object whose answers come from a fixed card
 * (`Card`); the driver behind it is modelled in module Mfrc522. Server replies
 * and keypad batches come from fixed sequences consumed in order; a reply of
 * None stands for a request, JSON decoding or field access that raised.
 */
module Controller {
  import opened Wrappers
  import opened Mfrc522Chip
  import Mfrc522

  /* ---------------- status light ---------------- */

  const WHITE := 1
  const RED := 2
  const BLUE := 3
  const GREEN := 4
  const OFF := 5
  const PINK := 6
  const YELLOW := 7
  const BLUEYELL := 8
  const YELLBLUE := 9

  /** The `lastled` global: set once and never reassigned. */
  const LastLed := -1

  datatype Rgb = Rgb(red: int, green: int, blue: int)

  const Dark := Rgb(0, 0, 0)
  const WhiteRgb := Rgb(255, 255, 255)
  const RedRgb := Rgb(255, 0, 0)
  const BlueRgb := Rgb(0, 0, 255)
  const GreenRgb := Rgb(0, 255, 0)
  const PinkRgb := Rgb(255, 0, 255)
  const YellowRgb := Rgb(255, 255, 0)

  /** The colours of the two pixels for each known status. */
  function Palette(stat: int): Option<seq<Rgb>>
  {
    if stat == WHITE then Some([WhiteRgb, WhiteRgb])
    else if stat == RED then Some([RedRgb, RedRgb])
    else if stat == BLUE then Some([BlueRgb, BlueRgb])
    else if stat == PINK then Some([PinkRgb, PinkRgb])
    else if stat == GREEN then Some([GreenRgb, GreenRgb])
    else if stat == YELLOW then Some([YellowRgb, YellowRgb])
    else if stat == YELLBLUE then Some([YellowRgb, BlueRgb])
    else if stat == BLUEYELL then Some([BlueRgb, YellowRgb])
    else if stat == OFF then Some([Dark, Dark])
    else None
  }

  /** What the pixels show after a call of led with a status other than `lastled`. */
  function Shows(stat: int): (p: seq<Rgb>)
    ensures |p| == 2
    ensures Palette(stat).None? ==> p == [Dark, Dark]
  {
    match Palette(stat)
    case Some(c) => c
    case None => [Dark, Dark]
  }

  /** The frames one call of led pushes to the strip: always a dark frame, then the table entry if there is one. */
  function LedFrames(stat: int): (frames: seq<seq<Rgb>>)
    ensures stat != LastLed ==> 1 <= |frames| && frames[0] == [Dark, Dark]
    ensures stat != LastLed ==> frames[|frames| - 1] == Shows(stat)
    ensures |frames| == 2 <==> stat != LastLed && Palette(stat).Some?
  {
    if stat == LastLed then []
    else [[Dark, Dark]] + (match Palette(stat) case Some(c) => [c] case None => [])
  }

  /** Because `lastled` never changes, repeating a status still rewrites the strip: there is no debounce. */
  lemma NoDebounce(stat: int)
    requires stat in {WHITE, RED, BLUE, GREEN, OFF, PINK, YELLOW, BLUEYELL, YELLBLUE}
    ensures LedFrames(stat) + LedFrames(stat) == [[Dark, Dark], Shows(stat), [Dark, Dark], Shows(stat)]
  {
  }

  /** The two NeoPixels and the watchdog. */
  class StatusLight {
    var pixels: seq<Rgb>
    /** Every frame pushed with np.write(), oldest first. */
    var shown: seq<seq<Rgb>>
    /** Number of watchdog feeds. */
    var feeds: nat

    predicate Valid()
      reads this
    {
      |pixels| == 2
    }

    constructor ()
      ensures Valid() && pixels == [Dark, Dark] && shown == [] && feeds == 0
    {
      pixels := [Dark, Dark];
      shown := [];
      feeds := 0;
    }

    /** Feeds the watchdog and writes the status colours (led). */
    method Led(stat: int)
      requires Valid()
      modifies this
      ensures Valid()
      ensures feeds == old(feeds) + 1
      ensures shown == old(shown) + LedFrames(stat)
      ensures pixels == if stat == LastLed then old(pixels) else Shows(stat)
    {
      feeds := feeds + 1;
      if LastLed != stat {
        pixels := [Dark, Dark];
        shown := shown + [pixels];
        var c := Palette(stat);
        if c.Some? {
          pixels := c.value;
          shown := shown + [pixels];
        }
      }
    }

    /** Feeds the watchdog only (wdt.feed). */
    method Feed()
      modifies this
      ensures feeds == old(feeds) + 1
      ensures pixels == old(pixels) && shown == old(shown)
    {
      feeds := feeds + 1;
    }
  }

  /* ---------------- the reader, as seen from the main loop ---------------- */

  /** One reader call issued by the main loop. */
  datatype CardOp =
    | RequestOp(mode: Byte)
    | ChinaCheckOp
    | AnticollOp
    | SelectOp(uid: seq<Byte>)
    | AuthOp(mode: Byte, block: int, key: seq<Byte>)
    | ReadOp(block: int)
    | WriteOp(block: int, data: seq<Byte>)
    | SetKeyOp(sector: int, keyA: seq<Byte>, keyB: seq<Byte>)
    | ReSetKeyOpenOp(sector: int, keyA: seq<Byte>, keyB: seq<Byte>)
    | StopCryptoOp

  /** How the card in the field answers. */
  datatype Card = Card(
    /** Answers REQA with a 16-bit ATQA. */
    present: bool,
    /** Answers the 7-bit magic request with 0x0A. */
    cloned: bool,
    /** The serial number returned by anticollision, when it checks out. */
    uid: Option<seq<Byte>>,
    selectable: bool,
    /** Whether authenticating with (mode, block, key) succeeds. */
    authorises: (Byte, int, seq<Byte>) -> bool,
    /** Whether a write command for this block is acknowledged. */
    acknowledges: int -> bool,
    /** The answers to the successive block reads. */
    answers: seq<Option<seq<Byte>>>)
  {
    predicate Valid()
    {
      uid.Some? ==> |uid.value| == 5
    }
  }

  /** The answer to the k-th block read; None past the end of the card's answers. */
  function ReadAt(card: Card, k: nat): Option<seq<Byte>>
  {
    if k < |card.answers| then card.answers[k] else None
  }

  class Reader {
    const card: Card
    /** Every call issued, oldest first. */
    var log: seq<CardOp>
    /** Number of block reads issued. */
    var readCount: nat

    constructor (card: Card)
      ensures this.card == card && log == [] && readCount == 0
    {
      this.card := card;
      log := [];
      readCount := 0;
    }

    method Request(mode: Byte) returns (stat: Status)
      modifies this
      ensures stat == (if card.present then OK else ERR)
      ensures log == old(log) + [RequestOp(mode)] && readCount == old(readCount)
    {
      stat := if card.present then OK else ERR;
      log := log + [RequestOp(mode)];
    }

    method CheckChinaUID() returns (answer: bool)
      modifies this
      ensures answer == card.cloned
      ensures log == old(log) + [ChinaCheckOp] && readCount == old(readCount)
    {
      answer := card.cloned;
      log := log + [ChinaCheckOp];
    }

    method Anticoll() returns (stat: Status, uid: seq<Byte>)
      requires card.Valid()
      modifies this
      ensures stat == OK <==> card.uid.Some?
      ensures stat == OK ==> uid == card.uid.value && |uid| == 5
      ensures log == old(log) + [AnticollOp] && readCount == old(readCount)
    {
      if card.uid.Some? {
        stat, uid := OK, card.uid.value;
      } else {
        stat, uid := ERR, [];
      }
      log := log + [AnticollOp];
    }

    method SelectTag(uid: seq<Byte>) returns (stat: Status)
      modifies this
      ensures stat == (if card.selectable then OK else ERR)
      ensures log == old(log) + [SelectOp(uid)] && readCount == old(readCount)
    {
      stat := if card.selectable then OK else ERR;
      log := log + [SelectOp(uid)];
    }

    method Auth(mode: Byte, block: int, key: seq<Byte>) returns (stat: Status)
      modifies this
      ensures stat == (if card.authorises(mode, block, key) then OK else ERR)
      ensures log == old(log) + [AuthOp(mode, block, key)] && readCount == old(readCount)
    {
      stat := if card.authorises(mode, block, key) then OK else ERR;
      log := log + [AuthOp(mode, block, key)];
    }

    method Read(block: int) returns (data: Option<seq<Byte>>)
      modifies this
      ensures data == ReadAt(card, old(readCount))
      ensures log == old(log) + [ReadOp(block)] && readCount == old(readCount) + 1
    {
      data := ReadAt(card, readCount);
      readCount := readCount + 1;
      log := log + [ReadOp(block)];
    }

    /** A write raises (IndexError) when the command is acknowledged and fewer than 16 data bytes were given. */
    method Write(block: int, data: seq<Byte>) returns (stat: Status, raised: bool)
      modifies this
      ensures raised <==> card.acknowledges(block) && |data| < 16
      ensures !raised ==> stat == (if card.acknowledges(block) then OK else ERR)
      ensures log == old(log) + [WriteOp(block, data)] && readCount == old(readCount)
    {
      raised := card.acknowledges(block) && |data| < 16;
      stat := if card.acknowledges(block) && !raised then OK else ERR;
      log := log + [WriteOp(block, data)];
    }

    /**
     * setKey: a sector outside -16..15 raises (IndexError) before any call;
     * otherwise the trailer write, which raises when the card acknowledges it
     * and one of the keys is shorter than 6 bytes.
     */
    method SetKey(sector: int, keyA: seq<Byte>, keyB: seq<Byte>) returns (raised: bool)
      modifies this
      ensures raised <==> (!(-16 <= sector < 16) ||
        (card.acknowledges(Mfrc522.TrailerBlockOf(PyIndex(sector, 16))) && ShortTrailer(keyA, keyB)))
      ensures log == old(log) + (if -16 <= sector < 16 then [SetKeyOp(sector, keyA, keyB)] else [])
      ensures readCount == old(readCount)
    {
      if -16 <= sector < 16 {
        raised := card.acknowledges(Mfrc522.TrailerBlockOf(PyIndex(sector, 16))) && ShortTrailer(keyA, keyB);
        log := log + [SetKeyOp(sector, keyA, keyB)];
      } else {
        raised := true;
      }
    }

    /** reSetKeyOpen: raises like setKey. */
    method ReSetKeyOpen(sector: int, keyA: seq<Byte>, keyB: seq<Byte>) returns (raised: bool)
      modifies this
      ensures raised <==> (!(-16 <= sector < 16) ||
        (card.acknowledges(Mfrc522.TrailerBlockOf(PyIndex(sector, 16))) && ShortTrailer(keyA, keyB)))
      ensures log == old(log) + (if -16 <= sector < 16 then [ReSetKeyOpenOp(sector, keyA, keyB)] else [])
      ensures readCount == old(readCount)
    {
      if -16 <= sector < 16 {
        raised := card.acknowledges(Mfrc522.TrailerBlockOf(PyIndex(sector, 16))) && ShortTrailer(keyA, keyB);
        log := log + [ReSetKeyOpenOp(sector, keyA, keyB)];
      } else {
        raised := true;
      }
    }

    method StopCrypto1()
      modifies this
      ensures log == old(log) + [StopCryptoOp] && readCount == old(readCount)
    {
      log := log + [StopCryptoOp];
    }
  }

  /* ---------------- provisioning (init) and wipe (reset) ---------------- */

  const DefaultKey: seq<Byte> := [0xFF, 0xFF, 0xFF, 0xFF, 0xFF, 0xFF]

  /** The 17-byte welcome text written to block 2 ("Go Away!" and nine spaces). */
  const Message: seq<Byte> := [0x47, 0x6F, 0x20, 0x41, 0x77, 0x61, 0x79, 0x21,
                               0x20, 0x20, 0x20, 0x20, 0x20, 0x20, 0x20, 0x20, 0x20]

  /** Seventeen zero bytes, the wipe pattern. */
  const Blank: seq<Byte> := seq(17, _ => 0)

  /** Python list indexing: a negative index counts from the end. */
  function PyIndex(i: int, len: nat): (k: int)
    ensures -(len as int) <= i < len ==> 0 <= k < len
    ensures 0 <= i ==> k == i
  {
    if i < 0 then len + i else i
  }

  /** The filler entry used for block x of sector i; blocks start at 4 while the list starts at 0. */
  function FillerIndex(i: int, x: int): int
  {
    (i - 4) * 4 + x
  }

  /** Over the 45 data blocks of sectors 1..15 the filler index lies in -12..46, and with a 60-entry list each block reads its own entry. */
  lemma FillerIndexDistinct(i: int, x: int, j: int, y: int)
    requires 1 <= i <= 15 && 0 <= x < 3 && 1 <= j <= 15 && 0 <= y < 3
    ensures -12 <= FillerIndex(i, x) <= 46
    ensures 0 <= PyIndex(FillerIndex(i, x), 60) < 60
    ensures PyIndex(FillerIndex(i, x), 60) == PyIndex(FillerIndex(j, y), 60) ==> i == j && x == y
  {
  }

  /**
   * The provisioning part of an "init" reply: setantiblk ("" is None), txt,
   * the hex-decoded keya and keyb lists and filler. A null list stands as the
   * empty list: indexing either one raises.
   */
  datatype Provision = Provision(
    antiBlock: Option<int>,
    txt: seq<Byte>,
    keyA: seq<seq<Byte>>,
    keyB: seq<seq<Byte>>,
    filler: seq<seq<Byte>>)
  {
    /**
     * The shape of the server's replies: 16 or more key pairs of at least 6
     * bytes, a filler list covering the indices -12..46 with entries of at least
     * 16 bytes, and a text of at least 16 bytes. Other shapes are handled too;
     * they may raise part-way.
     */
    predicate WellFormed()
    {
      antiBlock.Some? ==>
        |txt| >= 16 && |keyA| >= 16 && |keyB| >= 16 && |filler| >= 47 &&
        (forall k :: 0 <= k < |filler| ==> |filler[k]| >= 16) &&
        (forall k :: 0 <= k < |keyA| ==> |keyA[k]| >= 6) &&
        (forall k :: 0 <= k < |keyB| ==> |keyB[k]| >= 6)
    }
  }

  /** The calls a pass issued, and whether it stopped by raising. */
  datatype Run = Run(ops: seq<CardOp>, raised: bool)
  {
    /** Python's sequencing: the next part runs only when this one did not raise. */
    function Then(next: Run): Run
    {
      if raised then this else Run(ops + next.ops, next.raised)
    }
  }

  /** A driver write: it raises when the card acknowledges the command and the data is shorter than 16 bytes. */
  function WriteRun(card: Card, block: int, data: seq<Byte>): Run
  {
    Run([WriteOp(block, data)], card.acknowledges(block) && |data| < 16)
  }

  /** A sector trailer built from these keys is shorter than 16 bytes. */
  predicate ShortTrailer(keyA: seq<Byte>, keyB: seq<Byte>)
  {
    |keyA| < 6 || |keyB| < 6
  }

  /** The trailer setKey and reSetKeyOpen send is short exactly when one of its keys is, which is when their write raises. */
  lemma ShortTrailerIsShortWrite(keyA: seq<Byte>, access: seq<Byte>, keyB: seq<Byte>)
    requires |access| == 4
    ensures ShortTrailer(keyA, keyB) <==> |Mfrc522.Trailer(keyA, access, keyB)| < 16
  {
    if |keyA| < 6 {
      assert |Take(keyA, 6)| == |keyA|;
    }
    if |keyB| < 6 {
      assert |Take(keyB, 6)| == |keyB|;
    }
  }

  /**
   * The data init writes to block x of sector i: the anti-tamper text on its
   * block, a filler entry elsewhere; None when the filler index is out of range
   * (IndexError).
   */
  function InitData(p: Provision, i: int, x: int): (d: Option<seq<Byte>>)
    requires p.antiBlock.Some?
    ensures p.WellFormed() && 1 <= i <= 15 && 0 <= x < 3 ==> d.Some? && |d.value| >= 16
  {
    if 4 * i + x == p.antiBlock.value then Some(p.txt)
    else if -|p.filler| <= FillerIndex(i, x) < |p.filler| then Some(p.filler[PyIndex(FillerIndex(i, x), |p.filler|)])
    else None
  }

  /** The welcome text has 17 bytes, so this write never raises. */
  function InitBlock2(card: Card): seq<CardOp>
  {
    [AuthOp(Mfrc522.AUTHENT1A, 2, DefaultKey)] +
    (if card.authorises(Mfrc522.AUTHENT1A, 2, DefaultKey) then [WriteOp(2, Message)] else [])
  }

  function InitWrite(card: Card, p: Provision, i: int, x: int): Run
    requires p.antiBlock.Some?
  {
    match InitData(p, i, x)
    case None => Run([], true)
    case Some(d) => WriteRun(card, 4 * i + x, d)
  }

  /** The writes of blocks 0..n-1 of sector i. */
  function InitWrites(card: Card, p: Provision, i: int, n: nat): Run
    requires p.antiBlock.Some?
  {
    if n == 0 then Run([], false) else InitWrites(card, p, i, n - 1).Then(InitWrite(card, p, i, n - 1))
  }

  /** setKey with keya[i] and keyb[i]; a missing pair raises before any call. */
  function InitKeys(card: Card, p: Provision, i: nat): Run
  {
    if i < |p.keyA| && i < |p.keyB| then
      Run([SetKeyOp(i, p.keyA[i], p.keyB[i])],
          card.acknowledges(Mfrc522.TrailerBlockOf(i)) && ShortTrailer(p.keyA[i], p.keyB[i]))
    else Run([], true)
  }

  function InitSector(card: Card, p: Provision, i: int): Run
    requires p.antiBlock.Some? && 1 <= i <= 15
  {
    Run([AuthOp(Mfrc522.AUTHENT1A, 4 * i, DefaultKey)], false).Then(
      if card.authorises(Mfrc522.AUTHENT1A, 4 * i, DefaultKey)
      then InitWrites(card, p, i, 3).Then(InitKeys(card, p, i))
      else Run([], false))
  }

  /** The calls for sectors 1 .. n-1. */
  function InitSectors(card: Card, p: Provision, n: nat): Run
    requires p.antiBlock.Some? && 1 <= n <= 16
  {
    if n == 1 then Run([], false) else InitSectors(card, p, n - 1).Then(InitSector(card, p, n - 1))
  }

  /** Every call of the provisioning pass, and whether it raised: nothing at all when setantiblk is empty. */
  function InitRun(card: Card, p: Provision): (r: Run)
    ensures p.antiBlock.None? ==> r == Run([], false)
  {
    if p.antiBlock.None? then Run([], false) else Run(InitBlock2(card), false).Then(InitSectors(card, p, 16))
  }

  /** Once the writes of a sector raised, the later blocks add nothing. */
  lemma {:induction false} InitWritesStick(card: Card, p: Provision, i: int, x: nat, n: nat)
    requires p.antiBlock.Some? && x <= n && InitWrites(card, p, i, x).raised
    ensures InitWrites(card, p, i, n) == InitWrites(card, p, i, x)
  {
    if n > x {
      InitWritesStick(card, p, i, x, n - 1);
    }
  }

  /** Once a sector raised, the later sectors add nothing. */
  lemma {:induction false} InitSectorsStick(card: Card, p: Provision, m: nat, n: nat)
    requires p.antiBlock.Some? && 1 <= m <= n <= 16 && InitSectors(card, p, m).raised
    ensures InitSectors(card, p, n) == InitSectors(card, p, m)
  {
    if n > m {
      InitSectorsStick(card, p, m, n - 1);
    }
  }

  /** What each provisioning call of sectors 1..15 may be. */
  predicate InitSectorOpOk(card: Card, p: Provision, op: CardOp)
    requires p.antiBlock.Some?
  {
    match op
    case AuthOp(mode, block, key) =>
      mode == Mfrc522.AUTHENT1A && key == DefaultKey && 4 <= block < 64 && block % 4 == 0
    case WriteOp(block, data) =>
      4 <= block < 64 && block % 4 < 3 &&
      card.authorises(Mfrc522.AUTHENT1A, block - block % 4, DefaultKey) &&
      InitData(p, block / 4, block % 4) == Some(data)
    case SetKeyOp(sector, keyA, keyB) =>
      1 <= sector <= 15 && card.authorises(Mfrc522.AUTHENT1A, 4 * sector, DefaultKey) &&
      sector < |p.keyA| && sector < |p.keyB| && keyA == p.keyA[sector] && keyB == p.keyB[sector]
    case _ => false
  }

  lemma {:induction false} InitWritesOk(card: Card, p: Provision, i: int, n: nat)
    requires p.antiBlock.Some? && 1 <= i <= 15 && n <= 3
    requires card.authorises(Mfrc522.AUTHENT1A, 4 * i, DefaultKey)
    ensures forall op :: op in InitWrites(card, p, i, n).ops ==> InitSectorOpOk(card, p, op)
  {
    if n > 0 {
      InitWritesOk(card, p, i, n - 1);
      var x := n - 1;
      assert (4 * i + x) / 4 == i && (4 * i + x) % 4 == x;
    }
  }

  lemma InitSectorOk(card: Card, p: Provision, i: int)
    requires p.antiBlock.Some? && 1 <= i <= 15
    ensures forall op :: op in InitSector(card, p, i).ops ==> InitSectorOpOk(card, p, op)
  {
    if card.authorises(Mfrc522.AUTHENT1A, 4 * i, DefaultKey) {
      InitWritesOk(card, p, i, 3);
    }
  }

  /**
   * Whatever the reply holds, the provisioning pass over sectors 1..15 never
   * writes a trailer: it writes only data blocks of sectors it authenticated
   * to, each with its anti-tamper text or filler entry, and sets a sector's
   * keys only after that sector's authentication succeeded.
   */
  lemma {:induction false} InitSectorsOk(card: Card, p: Provision, n: nat)
    requires p.antiBlock.Some? && 1 <= n <= 16
    ensures forall op :: op in InitSectors(card, p, n).ops ==> InitSectorOpOk(card, p, op)
  {
    if n > 1 {
      InitSectorsOk(card, p, n - 1);
      InitSectorOk(card, p, n - 1);
    }
  }

  /** Writes that did not raise put every block's data in place. */
  lemma {:induction false} InitWritesDone(card: Card, p: Provision, i: int, n: nat, x: int)
    requires p.antiBlock.Some? && 0 <= x < n && !InitWrites(card, p, i, n).raised
    ensures InitData(p, i, x).Some? && WriteOp(4 * i + x, InitData(p, i, x).value) in InitWrites(card, p, i, n).ops
  {
    if x < n - 1 {
      InitWritesDone(card, p, i, n - 1, x);
    }
  }

  /**
   * When the pass did not raise, every sector the card lets in has all three
   * data blocks written, with the text or its filler entry, and its keys set.
   */
  lemma {:induction false} InitCoversSectors(card: Card, p: Provision, n: nat, i: int, x: int)
    requires p.antiBlock.Some? && 1 <= n <= 16 && !InitSectors(card, p, n).raised
    requires 1 <= i < n && 0 <= x < 3 && card.authorises(Mfrc522.AUTHENT1A, 4 * i, DefaultKey)
    ensures InitData(p, i, x).Some? && WriteOp(4 * i + x, InitData(p, i, x).value) in InitSectors(card, p, n).ops
    ensures i < |p.keyA| && i < |p.keyB| && SetKeyOp(i, p.keyA[i], p.keyB[i]) in InitSectors(card, p, n).ops
  {
    if i == n - 1 {
      InitWritesDone(card, p, i, 3, x);
    } else {
      InitCoversSectors(card, p, n - 1, i, x);
    }
  }

  /** The block named by setantiblk, when it is a data block of sectors 1..15, receives exactly the anti-tamper text. */
  lemma AntiBlockGetsText(p: Provision)
    requires p.antiBlock.Some?
    requires 4 <= p.antiBlock.value < 64 && p.antiBlock.value % 4 < 3
    ensures InitData(p, p.antiBlock.value / 4, p.antiBlock.value % 4) == Some(p.txt)
  {
  }

  lemma {:induction false} InitWritesNeverRaise(card: Card, p: Provision, i: int, n: nat)
    requires p.WellFormed() && p.antiBlock.Some? && 1 <= i <= 15 && n <= 3
    ensures !InitWrites(card, p, i, n).raised
  {
    if n > 0 {
      InitWritesNeverRaise(card, p, i, n - 1);
    }
  }

  lemma {:induction false} InitSectorsNeverRaise(card: Card, p: Provision, n: nat)
    requires p.WellFormed() && p.antiBlock.Some? && 1 <= n <= 16
    ensures !InitSectors(card, p, n).raised
  {
    if n > 1 {
      InitSectorsNeverRaise(card, p, n - 1);
      InitWritesNeverRaise(card, p, n - 1, 3);
    }
  }

  /** A reply of the server's shape provisions any card without raising. */
  lemma WellFormedInitNeverRaises(card: Card, p: Provision)
    requires p.WellFormed()
    ensures !InitRun(card, p).raised
  {
    if p.antiBlock.Some? {
      InitSectorsNeverRaise(card, p, 16);
    }
  }

  /** The calls for one sector of the provisioning pass (the body of init's sector loop). */
  method InitSectorPass(reader: Reader, p: Provision, i: int) returns (raised: bool)
    requires p.antiBlock.Some? && 1 <= i <= 15
    modifies reader
    ensures reader.log == old(reader.log) + InitSector(reader.card, p, i).ops
    ensures raised == InitSector(reader.card, p, i).raised
    ensures reader.readCount == old(reader.readCount)
  {
    raised := false;
    var st := reader.Auth(Mfrc522.AUTHENT1A, i * 4, DefaultKey);
    if st == OK {
      raised := InitWritesPass(reader, p, i);
      if raised {
        return;
      }
      if i < |p.keyA| && i < |p.keyB| {
        raised := reader.SetKey(i, p.keyA[i], p.keyB[i]);
      } else {
        raised := true;
      }
    }
  }

  /** The writes of the three data blocks of sector i, until one raises. */
  method InitWritesPass(reader: Reader, p: Provision, i: int) returns (raised: bool)
    requires p.antiBlock.Some?
    modifies reader
    ensures reader.log == old(reader.log) + InitWrites(reader.card, p, i, 3).ops
    ensures raised == InitWrites(reader.card, p, i, 3).raised
    ensures reader.readCount == old(reader.readCount)
  {
    raised := false;
    for x := 0 to 3
      invariant reader.log == old(reader.log) + InitWrites(reader.card, p, i, x).ops
      invariant !InitWrites(reader.card, p, i, x).raised
      invariant reader.readCount == old(reader.readCount)
    {
      raised := InitBlockPass(reader, p, i, x);
      if raised {
        InitWritesStick(reader.card, p, i, x + 1, 3);
        return;
      }
    }
  }

  /** The write of block x of sector i: the anti-tamper text on its block, else the filler entry, whose lookup may raise. */
  method InitBlockPass(reader: Reader, p: Provision, i: int, x: int) returns (raised: bool)
    requires p.antiBlock.Some?
    modifies reader
    ensures reader.log == old(reader.log) + InitWrite(reader.card, p, i, x).ops
    ensures raised == InitWrite(reader.card, p, i, x).raised
    ensures reader.readCount == old(reader.readCount)
  {
    var numblk := i * 4 + x;
    var numfiller := FillerIndex(i, x);
    if numblk == p.antiBlock.value {
      var _, r := reader.Write(p.antiBlock.value, p.txt);
      raised := r;
    } else if -|p.filler| <= numfiller < |p.filler| {
      var _, r := reader.Write(numblk, p.filler[PyIndex(numfiller, |p.filler|)]);
      raised := r;
    } else {
      raised := true;
    }
  }

  /** Provisions a card (init): block 2, then sectors 1..15 with data and keys, until something raises. */
  method InitCard(reader: Reader, p: Provision) returns (raised: bool)
    modifies reader
    ensures reader.log == old(reader.log) + InitRun(reader.card, p).ops
    ensures raised == InitRun(reader.card, p).raised
    ensures reader.readCount == old(reader.readCount)
  {
    raised := false;
    if p.antiBlock.Some? {
      var st := reader.Auth(Mfrc522.AUTHENT1A, 2, DefaultKey);
      if st == OK {
        var _, _ := reader.Write(2, Message);
      }
      raised := InitSectorsPass(reader, p);
      assert reader.log == old(reader.log) + (InitBlock2(reader.card) + InitSectors(reader.card, p, 16).ops);
    }
  }

  /** The provisioning calls for sectors 1..15 (init's sector loop). */
  method InitSectorsPass(reader: Reader, p: Provision) returns (raised: bool)
    requires p.antiBlock.Some?
    modifies reader
    ensures reader.log == old(reader.log) + InitSectors(reader.card, p, 16).ops
    ensures raised == InitSectors(reader.card, p, 16).raised
    ensures reader.readCount == old(reader.readCount)
  {
    raised := false;
    for i := 1 to 16
      invariant reader.log == old(reader.log) + InitSectors(reader.card, p, i).ops
      invariant !InitSectors(reader.card, p, i).raised
      invariant reader.readCount == old(reader.readCount)
    {
      raised := InitSectorPass(reader, p, i);
      assert InitSectors(reader.card, p, i + 1) == InitSectors(reader.card, p, i).Then(InitSector(reader.card, p, i));
      if raised {
        InitSectorsStick(reader.card, p, i + 1, 16);
        return;
      }
    }
  }

  /** The zero pattern has 17 bytes, so this write never raises. */
  function ResetBlock2(card: Card): seq<CardOp>
  {
    [AuthOp(Mfrc522.AUTHENT1B, 2, DefaultKey)] +
    (if card.authorises(Mfrc522.AUTHENT1B, 2, DefaultKey) then [WriteOp(2, Blank)] else [])
  }

  function ResetSectorWrites(i: int, n: nat): seq<CardOp>
    requires n <= 3
  {
    seq(n, x requires 0 <= x < n => WriteOp(4 * i + x, Blank))
  }

  /** One sector of the wipe: a missing key B raises before any call; the reopening uses the 6-byte default keys. */
  function ResetSector(card: Card, keyB: seq<seq<Byte>>, i: int): Run
    requires 1 <= i <= 15
  {
    if i < |keyB| then
      Run([AuthOp(Mfrc522.AUTHENT1B, 4 * i, keyB[i])], false).Then(
        if card.authorises(Mfrc522.AUTHENT1B, 4 * i, keyB[i])
        then Run(ResetSectorWrites(i, 3) + [ReSetKeyOpenOp(i, DefaultKey, DefaultKey)],
                 card.acknowledges(Mfrc522.TrailerBlockOf(i)) && ShortTrailer(DefaultKey, DefaultKey))
        else Run([], false))
    else Run([], true)
  }

  function ResetSectors(card: Card, keyB: seq<seq<Byte>>, n: nat): Run
    requires 1 <= n <= 16
  {
    if n == 1 then Run([], false) else ResetSectors(card, keyB, n - 1).Then(ResetSector(card, keyB, n - 1))
  }

  /** Every call of the wipe pass, and whether it raised: nothing at all when keyb is empty. */
  function ResetRun(card: Card, keyB: Option<seq<seq<Byte>>>): (r: Run)
    ensures keyB.None? ==> r == Run([], false)
  {
    if keyB.None? then Run([], false) else Run(ResetBlock2(card), false).Then(ResetSectors(card, keyB.value, 16))
  }

  /** Once a sector raised, the later sectors add nothing. */
  lemma {:induction false} ResetSectorsStick(card: Card, keyB: seq<seq<Byte>>, m: nat, n: nat)
    requires 1 <= m <= n <= 16 && ResetSectors(card, keyB, m).raised
    ensures ResetSectors(card, keyB, n) == ResetSectors(card, keyB, m)
  {
    if n > m {
      ResetSectorsStick(card, keyB, m, n - 1);
    }
  }

  /** Sectors whose key B is present never raise. */
  lemma {:induction false} ResetSectorsNeverRaise(card: Card, keyB: seq<seq<Byte>>, n: nat)
    requires 1 <= n <= 16 && (n == 1 || n <= |keyB|)
    ensures !ResetSectors(card, keyB, n).raised
  {
    if n > 1 {
      ResetSectorsNeverRaise(card, keyB, n - 1);
      assert !ShortTrailer(DefaultKey, DefaultKey);
    }
  }

  /**
   * A keyb list with fewer than 16 entries (a null one counts as empty) wipes
   * block 2 and the sectors it has keys for, then raises at the first sector
   * whose key is missing.
   */
  lemma ResetStopsAtMissingKey(card: Card, keyB: seq<seq<Byte>>)
    requires |keyB| < 16
    ensures var m := if |keyB| == 0 then 1 else |keyB|;
      ResetRun(card, Some(keyB)) == Run(ResetBlock2(card) + ResetSectors(card, keyB, m).ops, true)
  {
    var m := if |keyB| == 0 then 1 else |keyB|;
    ResetSectorsNeverRaise(card, keyB, m);
    assert ResetSectors(card, keyB, m + 1) == Run(ResetSectors(card, keyB, m).ops, true);
    ResetSectorsStick(card, keyB, m + 1, 16);
  }

  /** A keyb list of 16 or more entries wipes any card without raising. */
  lemma FullKeysResetNeverRaises(card: Card, keyB: seq<seq<Byte>>)
    requires |keyB| >= 16
    ensures !ResetRun(card, Some(keyB)).raised
  {
    ResetSectorsNeverRaise(card, keyB, 16);
  }

  /** What each wipe call of sectors 1..15 may be. */
  predicate ResetSectorOpOk(card: Card, keyB: seq<seq<Byte>>, op: CardOp)
  {
    match op
    case AuthOp(mode, block, key) =>
      mode == Mfrc522.AUTHENT1B && 4 <= block < 64 && block % 4 == 0 &&
      block / 4 < |keyB| && key == keyB[block / 4]
    case WriteOp(block, data) =>
      4 <= block < 64 && block % 4 < 3 && data == Blank && block / 4 < |keyB| &&
      card.authorises(Mfrc522.AUTHENT1B, block - block % 4, keyB[block / 4])
    case ReSetKeyOpenOp(sector, keyA, kB) =>
      1 <= sector <= 15 && keyA == DefaultKey && kB == DefaultKey && sector < |keyB| &&
      card.authorises(Mfrc522.AUTHENT1B, 4 * sector, keyB[sector])
    case _ => false
  }

  lemma ResetWritesOk(card: Card, keyB: seq<seq<Byte>>, i: int)
    requires 1 <= i <= 15 && i < |keyB| && card.authorises(Mfrc522.AUTHENT1B, 4 * i, keyB[i])
    ensures forall op :: op in ResetSectorWrites(i, 3) ==> ResetSectorOpOk(card, keyB, op)
  {
    var w := ResetSectorWrites(i, 3);
    forall x | 0 <= x < 3
      ensures ResetSectorOpOk(card, keyB, w[x])
    {
      assert w[x] == WriteOp(4 * i + x, Blank);
      assert (4 * i + x) / 4 == i && (4 * i + x) % 4 == x;
    }
  }

  lemma ResetSectorOk(card: Card, keyB: seq<seq<Byte>>, i: int)
    requires 1 <= i <= 15
    ensures forall op :: op in ResetSector(card, keyB, i).ops ==> ResetSectorOpOk(card, keyB, op)
  {
    if i < |keyB| && card.authorises(Mfrc522.AUTHENT1B, 4 * i, keyB[i]) {
      ResetWritesOk(card, keyB, i);
    }
  }

  /**
   * Whatever the reply holds, the wipe pass over sectors 1..15 writes only
   * zeros, only to data blocks of sectors whose key-B authentication
   * succeeded, and reopens only those sectors' trailers; a sector whose
   * authentication fails gets no write.
   */
  lemma {:induction false} ResetSectorsOk(card: Card, keyB: seq<seq<Byte>>, n: nat)
    requires 1 <= n <= 16
    ensures forall op :: op in ResetSectors(card, keyB, n).ops ==> ResetSectorOpOk(card, keyB, op)
  {
    if n > 1 {
      ResetSectorsOk(card, keyB, n - 1);
      ResetSectorOk(card, keyB, n - 1);
    }
  }

  /** When the wipe did not raise, every sector that accepts its key B has all three data blocks zeroed and its trailer reopened. */
  lemma {:induction false} ResetCoversSectors(card: Card, keyB: seq<seq<Byte>>, n: nat, i: int, x: int)
    requires 1 <= n <= 16 && !ResetSectors(card, keyB, n).raised
    requires 1 <= i < n && 0 <= x < 3
    ensures i < |keyB|
    ensures card.authorises(Mfrc522.AUTHENT1B, 4 * i, keyB[i]) ==>
      WriteOp(4 * i + x, Blank) in ResetSectors(card, keyB, n).ops &&
      ReSetKeyOpenOp(i, DefaultKey, DefaultKey) in ResetSectors(card, keyB, n).ops
  {
    var a, b := ResetSectors(card, keyB, n - 1), ResetSector(card, keyB, n - 1);
    if i == n - 1 {
      if card.authorises(Mfrc522.AUTHENT1B, 4 * i, keyB[i]) {
        assert b.ops[1 + x] == WriteOp(4 * i + x, Blank);
        assert b.ops[4] == ReSetKeyOpenOp(i, DefaultKey, DefaultKey);
      }
    } else {
      ResetCoversSectors(card, keyB, n - 1, i, x);
    }
  }

  /** The calls for one sector of the wipe pass (the body of reset's sector loop). */
  method ResetSectorPass(reader: Reader, keyB: seq<seq<Byte>>, i: int) returns (raised: bool)
    requires 1 <= i <= 15
    modifies reader
    ensures reader.log == old(reader.log) + ResetSector(reader.card, keyB, i).ops
    ensures raised == ResetSector(reader.card, keyB, i).raised
    ensures reader.readCount == old(reader.readCount)
  {
    if i >= |keyB| {
      return true;
    }
    raised := false;
    var st := reader.Auth(Mfrc522.AUTHENT1B, i * 4, keyB[i]);
    if st == OK {
      for x := 0 to 3
        invariant reader.log == old(reader.log) + [AuthOp(Mfrc522.AUTHENT1B, 4 * i, keyB[i])] + ResetSectorWrites(i, x)
        invariant reader.readCount == old(reader.readCount)
      {
        // Blank has 17 bytes: the write never raises.
        var _, _ := reader.Write(i * 4 + x, Blank);
        assert ResetSectorWrites(i, x + 1) == ResetSectorWrites(i, x) + [WriteOp(4 * i + x, Blank)];
      }
      raised := reader.ReSetKeyOpen(i, DefaultKey, DefaultKey);
    }
  }

  /** Wipes a card (reset): block 2, then the data blocks and trailers of sectors 1..15, until something raises. */
  method ResetCard(reader: Reader, keyB: Option<seq<seq<Byte>>>) returns (raised: bool)
    modifies reader
    ensures reader.log == old(reader.log) + ResetRun(reader.card, keyB).ops
    ensures raised == ResetRun(reader.card, keyB).raised
    ensures reader.readCount == old(reader.readCount)
  {
    raised := false;
    if keyB.Some? {
      var st := reader.Auth(Mfrc522.AUTHENT1B, 2, DefaultKey);
      if st == OK {
        var _, _ := reader.Write(2, Blank);
      }
      raised := ResetSectorsPass(reader, keyB.value);
      assert reader.log == old(reader.log) + (ResetBlock2(reader.card) + ResetSectors(reader.card, keyB.value, 16).ops);
    }
  }

  /** The wipe calls for sectors 1..15 (reset's sector loop). */
  method ResetSectorsPass(reader: Reader, keyB: seq<seq<Byte>>) returns (raised: bool)
    modifies reader
    ensures reader.log == old(reader.log) + ResetSectors(reader.card, keyB, 16).ops
    ensures raised == ResetSectors(reader.card, keyB, 16).raised
    ensures reader.readCount == old(reader.readCount)
  {
    raised := false;
    for i := 1 to 16
      invariant reader.log == old(reader.log) + ResetSectors(reader.card, keyB, i).ops
      invariant !ResetSectors(reader.card, keyB, i).raised
      invariant reader.readCount == old(reader.readCount)
    {
      raised := ResetSectorPass(reader, keyB, i);
      assert ResetSectors(reader.card, keyB, i + 1) == ResetSectors(reader.card, keyB, i).Then(ResetSector(reader.card, keyB, i));
      if raised {
        ResetSectorsStick(reader.card, keyB, i + 1, 16);
        return;
      }
    }
  }

  /* ---------------- the long-tap door-command classifier ---------------- */

  /** Python's "".join(chr(i) for i in data). */
  function Chars(data: seq<Byte>): (s: string)
    ensures |s| == |data|
  {
    seq(|data|, i requires 0 <= i < |data| => data[i] as int as char)
  }

  /** Distinct byte strings give distinct texts, so comparing texts compares the blocks read. */
  lemma CharsInjective(a: seq<Byte>, b: seq<Byte>)
    requires Chars(a) == Chars(b)
    ensures a == b
  {
    forall i | 0 <= i < |a|
      ensures a[i] == b[i]
    {
      assert Chars(a)[i] == Chars(b)[i];
    }
  }

  /** All four re-reads starting at read number r0 answer. */
  predicate AllReread(card: Card, r0: nat)
  {
    forall h :: r0 <= h < r0 + 4 ==> ReadAt(card, h).Some?
  }

  /**
   * Re-reads the freshly written block four times (the long-tap check). The
   * command is "close" when the text after the last re-read equals the text
   * read right after the write, "open" otherwise; a failed read stops the
   * re-reads and leaves the text "nope".
   */
  method DoorCommand(reader: Reader, block: int, pdata: string) returns (cmd: string, pdata2: string)
    modifies reader
    ensures var r0 := old(reader.readCount);
      && r0 < reader.readCount <= r0 + 4
      && reader.log == old(reader.log) + seq(reader.readCount - r0, _ => ReadOp(block))
      && (forall h :: r0 <= h < reader.readCount - 1 ==> ReadAt(reader.card, h).Some?)
      && (AllReread(reader.card, r0) ==> reader.readCount == r0 + 4 && pdata2 == Chars(ReadAt(reader.card, r0 + 3).value))
      && (!AllReread(reader.card, r0) ==> ReadAt(reader.card, reader.readCount - 1).None? && pdata2 == "nope")
    ensures cmd == (if pdata2 == pdata then "close" else "open")
    ensures pdata != "nope" ==>
      (cmd == "close" <==> AllReread(reader.card, old(reader.readCount)) && Chars(ReadAt(reader.card, old(reader.readCount) + 3).value) == pdata)
  {
    ghost var r0 := reader.readCount;
    cmd := "open";
    pdata2 := "nope";
    var g := 0;
    while g < 4
      invariant 0 <= g <= 4
      invariant reader.readCount == r0 + g
      invariant reader.log == old(reader.log) + seq(g, _ => ReadOp(block))
      invariant forall h :: r0 <= h < r0 + g ==> ReadAt(reader.card, h).Some?
      invariant g > 0 ==> pdata2 == Chars(ReadAt(reader.card, r0 + g - 1).value)
      invariant g == 0 ==> pdata2 == "nope"
    {
      var data2 := reader.Read(block);
      assert seq(g + 1, _ => ReadOp(block)) == seq(g, _ => ReadOp(block)) + [ReadOp(block)];
      if data2.None? {
        pdata2 := "nope";
        assert !AllReread(reader.card, r0) by {
          assert ReadAt(reader.card, r0 + g).None?;
        }
        break;
      }
      pdata2 := Chars(data2.value);
      g := g + 1;
    }
    if pdata2 == pdata {
      cmd := "close";
    }
  }

  /* ---------------- keypad batches ---------------- */

  /** The result of the j-th call of get_key; "" once the keypad stays quiet. */
  function KeyAt(feed: seq<string>, j: nat): string
  {
    if j < |feed| then feed[j] else ""
  }

  /** The concatenation of the results of calls lo .. hi-1. */
  function Flatten(feed: seq<string>, lo: nat, hi: nat): string
    requires lo <= hi
    decreases hi - lo
  {
    if hi == lo then "" else Flatten(feed, lo, hi - 1) + KeyAt(feed, hi - 1)
  }

  /** No key arrived in calls lo .. hi-1. */
  predicate Silent(feed: seq<string>, lo: nat, hi: nat)
  {
    forall j :: lo <= j < hi ==> KeyAt(feed, j) == ""
  }

  /** Calls lo .. hi-1 collected nothing exactly when they were all empty. */
  lemma {:induction false} FlattenSilent(feed: seq<string>, lo: nat, hi: nat)
    requires lo <= hi
    ensures Silent(feed, lo, hi) <==> Flatten(feed, lo, hi) == ""
  {
    if hi > lo {
      FlattenSilent(feed, lo, hi - 1);
      var rest, last := Flatten(feed, lo, hi - 1), KeyAt(feed, hi - 1);
      assert |rest + last| == |rest| + |last|;
      assert Silent(feed, lo, hi) <==> Silent(feed, lo, hi - 1) && last == "";
    }
  }

  /** An exact "#" or "*" batch aborts entry. */
  predicate IsAbort(key: string)
  {
    key == "#" || key == "*"
  }

  /** No batch that arrived after a non-empty one was an abort. */
  predicate NoAbortAfterFirst(feed: seq<string>, lo: nat, hi: nat)
  {
    forall i, j :: lo <= i < j < hi && KeyAt(feed, i) != "" ==> !IsAbort(KeyAt(feed, j))
  }

  /** One more call keeps NoAbortAfterFirst when that call is not an abort arriving once something was collected. */
  lemma NoAbortExtend(feed: seq<string>, lo: nat, hi: nat)
    requires lo <= hi && NoAbortAfterFirst(feed, lo, hi)
    requires Flatten(feed, lo, hi) != "" ==> !IsAbort(KeyAt(feed, hi))
    ensures NoAbortAfterFirst(feed, lo, hi + 1)
  {
    FlattenSilent(feed, lo, hi);
  }

  /** A call among lo .. hi-1 that returned a key, when the calls collected something. */
  ghost function KeyCallIn(feed: seq<string>, lo: nat, hi: nat): (j: nat)
    requires lo <= hi && Flatten(feed, lo, hi) != ""
    ensures lo <= j < hi && KeyAt(feed, j) != ""
    decreases hi - lo
  {
    if KeyAt(feed, hi - 1) != "" then hi - 1
    else
      assert Flatten(feed, lo, hi) == Flatten(feed, lo, hi - 1) + "";
      KeyCallIn(feed, lo, hi - 1)
  }

  /** Python's "0" * n. */
  function Zeros(n: int): (z: string)
    ensures |z| == if n < 0 then 0 else n
    ensures forall i :: 0 <= i < |z| ==> z[i] == '0'
  {
    if n <= 0 then "" else seq(n, _ => '0')
  }

  /* ---------------- server requests and replies ---------------- */

  /** The JSON bodies the controller posts (device_id is a fixed setting and is left implicit). */
  datatype Request =
    | Stage1Req(uid: string)
    | Stage2Req(uid: string, key: string)
    | Stage3Req(uid: string, key: string, doorCmd: string)
    | Stage4Req(uid: string, key: string, doorCmd: string, gcode: string)
    | ChinaUidReq(uid: string)
    | KeyAuthReq(key: string)

  /** The fields of a reply beyond its status. */
  datatype Body =
    | Bare
    | ReadOrder(block: int, key: seq<Byte>)
    | WriteOrder(block: int, key: seq<Byte>, txt: seq<Byte>)
    | CodeOrder(num: int)
    | InitOrder(provision: Provision)
    | ResetOrder(keyB: Option<seq<seq<Byte>>>)

  datatype Reply = Reply(status: string, body: Body)

  /** The reply to the k-th request; None stands for a request or decoding that raised. */
  function ReplyAt(replies: seq<Option<Reply>>, k: nat): Option<Reply>
  {
    if k < |replies| then replies[k] else None
  }

  /** How a pass of a polling loop ended. */
  datatype Progress = Pending | Complete | Abandoned

  datatype Trip =
    | NoCard
    | ClonedCard
    | NoUid
    | NotSelected
    | Refused(stage: nat)
    | AuthFailed(stage: nat)
    | Provisioned
    | Wiped
    | Finished(doorCmd: string, secondFactor: Option<bool>)
    | Broken(stage: nat)

  /** The lower-case hex digit of a nibble. */
  function NibbleChar(k: int): (c: char)
    requires 0 <= k < 16
    ensures '0' <= c <= '9' || 'a' <= c <= 'f'
  {
    if k < 10 then ('0' as int + k) as char else ('a' as int + k - 10) as char
  }

  function Hex2(b: Byte): (s: string)
    ensures |s| == 2
  {
    [NibbleChar((b >> 4) as int), NibbleChar((b & 0x0F) as int)]
  }

  /** The "%02x%02x%02x%02x" rendering of the first four serial-number bytes. */
  function HexUid(uid: seq<Byte>): (s: string)
    requires |uid| >= 4
    ensures |s| == 8
  {
    Hex2(uid[0]) + Hex2(uid[1]) + Hex2(uid[2]) + Hex2(uid[3])
  }

  /** Distinct nibbles have distinct digits. */
  lemma NibbleCharInjective(i: int, j: int)
    requires 0 <= i < 16 && 0 <= j < 16 && NibbleChar(i) == NibbleChar(j)
    ensures i == j
  {
    assert NibbleChar(i) as int == NibbleChar(j) as int;
  }

  /** A byte is its two nibbles. */
  lemma NibblesDetermine(a: Byte, b: Byte)
    requires a >> 4 == b >> 4 && a & 0x0F == b & 0x0F
    ensures a == b
  {
  }

  lemma ByteValueInjective(a: Byte, b: Byte)
    requires a as int == b as int
    ensures a == b
  {
    assert (a as int) as bv8 == a && (b as int) as bv8 == b;
  }

  lemma Hex2Injective(a: Byte, b: Byte)
    requires Hex2(a) == Hex2(b)
    ensures a == b
  {
    var ah, bh, al, bl := a >> 4, b >> 4, a & 0x0F, b & 0x0F;
    assert NibbleChar(ah as int) == Hex2(a)[0] && NibbleChar(bh as int) == Hex2(b)[0];
    assert NibbleChar(al as int) == Hex2(a)[1] && NibbleChar(bl as int) == Hex2(b)[1];
    NibbleCharInjective(ah as int, bh as int);
    NibbleCharInjective(al as int, bl as int);
    ByteValueInjective(ah, bh);
    ByteValueInjective(al, bl);
    NibblesDetermine(a, b);
  }

  /** Each byte's two digits sit at their own place in HexUid. */
  lemma HexUidParts(u: seq<Byte>)
    requires |u| >= 4
    ensures HexUid(u)[..2] == Hex2(u[0]) && HexUid(u)[2..4] == Hex2(u[1])
    ensures HexUid(u)[4..6] == Hex2(u[2]) && HexUid(u)[6..] == Hex2(u[3])
  {
  }

  lemma FirstFourAgree(a: seq<Byte>, b: seq<Byte>)
    requires |a| >= 4 && |b| >= 4 && a[0] == b[0] && a[1] == b[1] && a[2] == b[2] && a[3] == b[3]
    ensures a[..4] == b[..4]
  {
  }

  lemma HexUidInjective(a: seq<Byte>, b: seq<Byte>)
    requires |a| >= 4 && |b| >= 4 && HexUid(a) == HexUid(b)
    ensures a[..4] == b[..4]
  {
    HexUidParts(a);
    HexUidParts(b);
    Hex2Injective(a[0], b[0]);
    Hex2Injective(a[1], b[1]);
    Hex2Injective(a[2], b[2]);
    Hex2Injective(a[3], b[3]);
    FirstFourAgree(a, b);
  }

  /* ---------------- the controller's state and its loops ---------------- */

  class Station {
    const light: StatusLight
    const reader: Reader
    /** The server's successive replies. */
    const replies: seq<Option<Reply>>
    /** Every request posted, oldest first; the k-th gets replies' k-th entry. */
    var posts: seq<Request>
    /** The successive results of get_key. */
    const keyFeed: seq<string>
    var keyCalls: nat
    /** Whether the keypad scan timer runs. */
    var keypadRunning: bool

    predicate Valid()
      reads this, light
    {
      light.Valid() && reader.card.Valid()
    }

    constructor (light: StatusLight, reader: Reader, replies: seq<Option<Reply>>, keyFeed: seq<string>)
      requires light.Valid() && reader.card.Valid()
      ensures Valid()
      ensures this.light == light && this.reader == reader && this.replies == replies && this.keyFeed == keyFeed
      ensures posts == [] && keyCalls == 0 && keypadRunning
    {
      this.light := light;
      this.reader := reader;
      this.replies := replies;
      this.keyFeed := keyFeed;
      posts := [];
      keyCalls := 0;
      keypadRunning := true;
    }

    /** urequests.post followed by r.json(): the next reply. */
    method Post(req: Request) returns (reply: Option<Reply>)
      modifies this
      ensures reply == ReplyAt(replies, |old(posts)|)
      ensures posts == old(posts) + [req]
      ensures keyCalls == old(keyCalls) && keypadRunning == old(keypadRunning)
    {
      reply := ReplyAt(replies, |posts|);
      posts := posts + [req];
    }

    /** keypad.get_key(): the next batch of characters. */
    method GetKey() returns (key: string)
      modifies this
      ensures key == KeyAt(keyFeed, old(keyCalls)) && keyCalls == old(keyCalls) + 1
      ensures posts == old(posts) && keypadRunning == old(keypadRunning)
    {
      key := KeyAt(keyFeed, keyCalls);
      keyCalls := keyCalls + 1;
    }

    /**
     * What the polling loop of get_stage4_gcode keeps: key is everything
     * read since call k0, empty until the first batch (testkey) arrives;
     * until then every poll costs 5 ticks; no abort key followed a
     * non-empty batch.
     */
    ghost predicate Entering(k0: nat, key: string, testkey: string, timecnt: int)
      reads this
    {
      && k0 <= keyCalls
      && key == Flatten(keyFeed, k0, keyCalls) && (testkey == "" <==> key == "")
      && (testkey == "" ==> timecnt == 5 * (keyCalls - k0))
      && NoAbortAfterFirst(keyFeed, k0, keyCalls)
    }

    /** One pass of the polling loop before the first batch: 5 ticks, and the waiting colours swap. */
    method WaitTick(ghost k0: nat, myled: int, timecnt: int) returns (testkey: string, key: string, myled': int, timecnt': int)
      requires Valid() && keypadRunning && 0 <= timecnt < 600 && Entering(k0, "", "", timecnt)
      modifies this, light
      ensures Valid() && posts == old(posts) && keypadRunning && keyCalls == old(keyCalls) + 1
      ensures timecnt' == timecnt + 5 && Entering(k0, key, testkey, timecnt')
    {
      light.Feed();
      testkey, key := FirstPoll(k0);
      if myled == BLUEYELL {
        light.Led(YELLBLUE);
        myled' := YELLBLUE;
      } else {
        light.Led(BLUEYELL);
        myled' := BLUEYELL;
      }
      timecnt' := timecnt + 5;
    }

    /**
     * One pass of the polling loop once a batch arrived: complete (keypad
     * stopped, light off) when n characters are there; otherwise a read,
     * which abandons entry on an abort key (light off), or appends a new
     * batch (BLUE, count reset), or just counts the tick.
     */
    method EntryTick(ghost k0: nat, n: int, key: string, timecnt: int) returns (key': string, timecnt': int, progress: Progress)
      requires Valid() && keypadRunning && 0 <= timecnt < 600
      requires k0 <= keyCalls && key == Flatten(keyFeed, k0, keyCalls) && key != "" && NoAbortAfterFirst(keyFeed, k0, keyCalls)
      modifies this, light
      ensures Valid() && posts == old(posts)
      ensures progress == Complete ==>
        && !keypadRunning && keyCalls == old(keyCalls) && key' == key && |key| >= n
      ensures progress == Abandoned ==>
        && keypadRunning && keyCalls == old(keyCalls) + 1
        && IsAbort(KeyAt(keyFeed, keyCalls - 1)) && KeyAt(keyFeed, keyCalls - 1) != ""
      ensures progress == Pending ==>
        && keypadRunning && keyCalls == old(keyCalls) + 1 && |key| < n
        && key' == Flatten(keyFeed, k0, keyCalls) && NoAbortAfterFirst(keyFeed, k0, keyCalls)
        && ((|key'| > |key| && timecnt' == 0) || (key' == key && timecnt' == timecnt + 1))
    {
      light.Feed();
      timecnt' := timecnt + 1;
      light.Led(YELLOW);
      key' := key;
      if |key| >= n {
        keypadRunning := false;
        light.Led(OFF);
        return key', timecnt', Complete;
      }
      var grew, aborted;
      key', grew, aborted := ReadMore(k0, key);
      if aborted {
        light.Led(OFF);
        return key', timecnt', Abandoned;
      }
      progress := Pending;
      if grew {
        timecnt' := 0;
        light.Led(BLUE);
      }
    }

    /** A poll while waiting for the first batch: the batch read becomes both testkey and key. */
    method FirstPoll(ghost k0: nat) returns (testkey: string, key: string)
      requires Valid() && Entering(k0, "", "", 5 * (keyCalls - k0))
      modifies this
      ensures Valid() && posts == old(posts) && keypadRunning == old(keypadRunning) && keyCalls == old(keyCalls) + 1
      ensures Entering(k0, key, testkey, 5 * (keyCalls - k0))
    {
      testkey := GetKey();
      NoAbortExtend(keyFeed, k0, keyCalls - 1);
      assert Flatten(keyFeed, k0, keyCalls) == testkey;
      key := testkey;
    }

    /**
     * A read once something was collected: an abort key ends entry; a new
     * batch is appended; an empty read changes nothing.
     */
    method ReadMore(ghost k0: nat, key: string) returns (key': string, grew: bool, aborted: bool)
      requires Valid() && k0 <= keyCalls && key == Flatten(keyFeed, k0, keyCalls) && key != ""
      requires NoAbortAfterFirst(keyFeed, k0, keyCalls)
      modifies this
      ensures Valid() && posts == old(posts) && keypadRunning == old(keypadRunning) && keyCalls == old(keyCalls) + 1
      ensures aborted ==> IsAbort(KeyAt(keyFeed, keyCalls - 1)) && KeyAt(keyFeed, keyCalls - 1) != ""
      ensures !aborted ==> key' == Flatten(keyFeed, k0, keyCalls) && NoAbortAfterFirst(keyFeed, k0, keyCalls)
      ensures !aborted ==> (grew <==> KeyAt(keyFeed, keyCalls - 1) != "")
      ensures !aborted ==> (grew ==> |key'| > |key|) && (!grew ==> key' == key)
    {
      var newkey := GetKey();
      assert Flatten(keyFeed, k0, keyCalls) == key + newkey;
      key', grew, aborted := key, false, false;
      if newkey == "" {
        assert key + newkey == key;
      } else {
        if IsAbort(newkey) {
          aborted := true;
          return;
        }
        key' := key + newkey;
        grew := true;
      }
      NoAbortExtend(keyFeed, k0, keyCalls - 1);
    }

    /**
     * The polling loop of get_stage4_gcode: complete when the collected
     * batches reach n characters; not complete on an abort (an exact "#" or
     * "*" after the first batch) or after 600 ticks without a key. Waiting for
     * the first batch costs 5 ticks a poll, later polls 1, and every new batch
     * resets the count.
     */
    method Stage4Entry(n: int) returns (complete: bool, key: string)
      requires Valid() && keypadRunning
      modifies this, light
      ensures Valid() && posts == old(posts) && old(keyCalls) <= keyCalls
      ensures complete ==> |key| >= n && key == Flatten(keyFeed, old(keyCalls), keyCalls)
      ensures complete ==> NoAbortAfterFirst(keyFeed, old(keyCalls), keyCalls)
      ensures Silent(keyFeed, old(keyCalls), keyCalls) ==> keyCalls == old(keyCalls) + 120 && !complete
      ensures old(keyCalls) < keyCalls && Flatten(keyFeed, old(keyCalls), keyCalls - 1) != "" && IsAbort(KeyAt(keyFeed, keyCalls - 1))
              ==> !complete
      ensures !keypadRunning
    {
      ghost var k0 := keyCalls;
      var progress, testkey, timecnt;
      progress, key, testkey, timecnt := EntryLoop(n);
      FlattenSilent(keyFeed, k0, keyCalls);
      if progress == Complete {
        if Flatten(keyFeed, k0, keyCalls - 1) != "" {
          var j := KeyCallIn(keyFeed, k0, keyCalls - 1);
          assert KeyAt(keyFeed, j) != "" && j < keyCalls - 1;
        }
        return true, key;
      }
      complete := false;
      keypadRunning := false;
    }

    /**
     * The while-True loop of get_stage4_gcode, up to the point where it
     * returns or breaks: complete once n characters are there, abandoned on
     * an abort after the first batch, Pending when 600 ticks have passed.
     */
    method EntryLoop(n: int) returns (progress: Progress, key: string, testkey: string, timecnt: int)
      requires Valid() && keypadRunning
      modifies this, light
      ensures Valid() && posts == old(posts) && old(keyCalls) <= keyCalls
      ensures progress == Complete ==>
        && !keypadRunning && Entering(old(keyCalls), key, testkey, timecnt) && |key| >= n && key != ""
      ensures progress == Abandoned ==>
        && keypadRunning && old(keyCalls) < keyCalls && Flatten(keyFeed, old(keyCalls), keyCalls - 1) != ""
        && IsAbort(KeyAt(keyFeed, keyCalls - 1)) && KeyAt(keyFeed, keyCalls - 1) != ""
      ensures progress == Pending ==>
        && keypadRunning && Entering(old(keyCalls), key, testkey, timecnt) && 600 <= timecnt < 605
    {
      ghost var k0 := keyCalls;
      var myled := BLUEYELL;
      timecnt := 0;
      testkey := "";
      key := "";
      while true
        invariant Valid() && posts == old(posts) && keypadRunning
        invariant 0 <= timecnt < 600 && Entering(k0, key, testkey, timecnt)
        decreases if testkey == "" then 1 else 0, if |key| < n then n - |key| else 0, 600 - timecnt
      {
        if |testkey| == 0 {
          testkey, key, myled, timecnt := WaitTick(k0, myled, timecnt);
        } else {
          var key', timecnt', progress' := EntryTick(k0, n, key, timecnt);
          if progress' != Pending {
            return progress', key, testkey, timecnt;
          }
          key, timecnt := key', timecnt';
        }
        if timecnt >= 600 {
          return Pending, key, testkey, timecnt;
        }
      }
    }

    /**
     * Collects an n-digit second factor (get_stage4_gcode): the collected
     * batches once they reach n characters, "0"*n otherwise; the keypad timer
     * runs during entry and is stopped on every path.
     */
    method GetStage4Code(n: int) returns (code: string)
      requires Valid()
      modifies this, light
      ensures Valid() && posts == old(posts) && old(keyCalls) <= keyCalls
      ensures |code| >= n
      ensures !keypadRunning
      ensures code == Zeros(n) || code == Flatten(keyFeed, old(keyCalls), keyCalls)
      ensures Silent(keyFeed, old(keyCalls), keyCalls) ==> keyCalls == old(keyCalls) + 120 && code == Zeros(n)
      ensures old(keyCalls) < keyCalls && Flatten(keyFeed, old(keyCalls), keyCalls - 1) != "" && IsAbort(KeyAt(keyFeed, keyCalls - 1))
              ==> code == Zeros(n)
      ensures code != Zeros(n) ==> NoAbortAfterFirst(keyFeed, old(keyCalls), keyCalls)
    {
      keypadRunning := true;
      var complete, key := Stage4Entry(n);
      if complete {
        code := key;
      } else {
        code := Zeros(n);
      }
    }

    /** Posts a collected code as a keyauth request and shows GREEN only on status "kk". */
    method SendKeyAuth(key: string)
      requires Valid()
      modifies this, light
      ensures Valid()
      ensures posts == old(posts) + [KeyAuthReq(key)]
      ensures keypadRunning && keyCalls == old(keyCalls)
      ensures light.pixels == (if ReplyAt(replies, |old(posts)|).Some? && ReplyAt(replies, |old(posts)|).value.status == "kk"
                               then Shows(GREEN) else Shows(RED))
    {
      keypadRunning := false;
      light.Led(WHITE);
      var r := Post(KeyAuthReq(key));
      if r.Some? && r.value.status == "kk" {
        light.Led(GREEN);
      } else {
        light.Led(RED);
      }
      keypadRunning := true;
    }

    /**
     * The collecting loop of the keypad-only entry, entered right after a
     * first non-empty batch (call k0): complete once the batches reach 10
     * characters; not complete on an abort key or after 100 ticks without a
     * key, every new batch resetting the count.
     */
    method KeypadCollect(ghost k0: nat, first: string) returns (complete: bool, key: string)
      requires Valid() && keyCalls == k0 + 1
      requires first != "" && first == KeyAt(keyFeed, k0)
      modifies this, light
      ensures Valid() && posts == old(posts) && keypadRunning == old(keypadRunning) && k0 < keyCalls
      ensures complete ==> |key| >= 10 && key == Flatten(keyFeed, k0, keyCalls) && NoAbortAfterFirst(keyFeed, k0, keyCalls)
      ensures k0 + 1 < keyCalls && IsAbort(KeyAt(keyFeed, keyCalls - 1)) ==> !complete
      ensures |first| < 10 && Silent(keyFeed, k0 + 1, keyCalls) ==> !complete && keyCalls == k0 + 101
    {
      key := first;
      var timecnt := 0;
      while true
        invariant Valid() && posts == old(posts) && keypadRunning == old(keypadRunning)
        invariant 0 <= timecnt < 100 && Collecting(k0, first, key, timecnt)
        decreases if |key| < 10 then 10 - |key| else 0, 100 - timecnt
      {
        light.Feed();
        timecnt := timecnt + 1;
        light.Led(YELLOW);
        if |key| >= 10 {
          complete := true;
          break;
        }
        var aborted;
        key, timecnt, aborted := CollectTick(k0, first, key, timecnt);
        if aborted {
          complete := false;
          break;
        }
        if timecnt >= 100 {
          complete := false;
          break;
        }
      }
    }

    /**
     * What the collecting loop keeps: key is everything read since call k0,
     * no abort key followed a non-empty batch, and while nothing new came
     * timecnt counts the calls since the first batch.
     */
    ghost predicate Collecting(k0: nat, first: string, key: string, timecnt: int)
      reads this
    {
      && k0 < keyCalls
      && key == Flatten(keyFeed, k0, keyCalls) && key != ""
      && (Silent(keyFeed, k0 + 1, keyCalls) ==> timecnt == keyCalls - k0 - 1 && key == first)
      && NoAbortAfterFirst(keyFeed, k0, keyCalls)
    }

    /**
     * One read of the collecting loop: an abort key ends entry with the
     * light off; a new batch is appended, shown BLUE and resets the count;
     * an empty read changes nothing.
     */
    method CollectTick(ghost k0: nat, first: string, key: string, timecnt: int) returns (key': string, timecnt': int, aborted: bool)
      requires Valid() && 1 <= timecnt <= 100 && Collecting(k0, first, key, timecnt - 1)
      modifies this, light
      ensures Valid() && posts == old(posts) && keypadRunning == old(keypadRunning) && keyCalls == old(keyCalls) + 1
      ensures aborted ==> IsAbort(KeyAt(keyFeed, keyCalls - 1)) && KeyAt(keyFeed, keyCalls - 1) != ""
      ensures !aborted ==> Collecting(k0, first, key', timecnt')
      ensures !aborted ==> (|key'| > |key| && timecnt' == 0) || (key' == key && timecnt' == timecnt)
    {
      var grew;
      key', grew, aborted := ReadMore(k0, key);
      timecnt' := if grew then 0 else timecnt;
      if aborted {
        light.Led(OFF);
        return;
      }
      if grew {
        light.Led(BLUE);
      }
    }

    /**
     * The keypad-only entry (the useGoogleAuth part of the main loop): once a
     * first batch arrives, batches are collected until there are 10
     * characters, which are posted as a keyauth request; an abort key or 100
     * ticks without a key ends entry without a request.
     */
    method KeypadOnly() returns (sent: Option<string>)
      requires Valid()
      modifies this, light
      ensures Valid() && old(keyCalls) < keyCalls
      ensures sent.Some? ==>
        && |sent.value| >= 10
        && sent.value == Flatten(keyFeed, old(keyCalls), keyCalls)
        && NoAbortAfterFirst(keyFeed, old(keyCalls), keyCalls)
        && posts == old(posts) + [KeyAuthReq(sent.value)]
        && keypadRunning
        && light.pixels == (if ReplyAt(replies, |old(posts)|).Some? && ReplyAt(replies, |old(posts)|).value.status == "kk"
                            then Shows(GREEN) else Shows(RED))
      ensures sent.None? ==> posts == old(posts) && keypadRunning == old(keypadRunning)
      ensures KeyAt(keyFeed, old(keyCalls)) == "" ==> sent.None? && keyCalls == old(keyCalls) + 1
      ensures old(keyCalls) + 1 < keyCalls && IsAbort(KeyAt(keyFeed, keyCalls - 1)) ==> sent.None?
      ensures KeyAt(keyFeed, old(keyCalls)) != "" && |KeyAt(keyFeed, old(keyCalls))| < 10 && Silent(keyFeed, old(keyCalls) + 1, keyCalls)
              ==> sent.None? && keyCalls == old(keyCalls) + 101
    {
      ghost var k0 := keyCalls;
      var key := GetKey();
      if key == "" {
        return None;
      }
      var complete;
      complete, key := KeypadCollect(k0, key);
      ghost var k1 := keyCalls;
      if !complete {
        return None;
      }
      SendKeyAuth(key);
      assert keyCalls == k1;
      return Some(key);
    }

    /**
     * Stage 3: reports the door command. A "getcode" reply with a digit count
     * leads to stage 4: the code is collected and posted, and "done" shows
     * GREEN, anything else RED. Any other status ends the transaction as it
     * stands; a request that raised, or a "getcode" reply without a count,
     * shows RED and breaks out (reported as Broken(3)).
     */
    method Stage3(uid: string, pdata: string, cmd: string) returns (trip: Trip)
      requires Valid()
      modifies this, light
      ensures Valid() && old(keyCalls) <= keyCalls
      ensures !old(keypadRunning) ==> !keypadRunning
      ensures |old(posts)| < |posts| <= |old(posts)| + 2 && posts[..|old(posts)| + 1] == old(posts) + [Stage3Req(uid, pdata, cmd)]
      ensures trip.Broken? || trip.Finished?
      ensures trip.Broken? ==> trip.stage == 3 && light.pixels == Shows(RED)
      ensures trip.Finished? ==> trip.doorCmd == cmd
      ensures var r := ReplyAt(replies, |old(posts)|);
        && (r.None? ==> trip == Broken(3) && |posts| == |old(posts)| + 1)
        && (r.Some? && r.value.status != "getcode" ==> trip == Finished(cmd, None) && |posts| == |old(posts)| + 1 && keyCalls == old(keyCalls))
        && (r.Some? && r.value.status == "getcode" && !r.value.body.CodeOrder? ==> trip == Broken(3) && |posts| == |old(posts)| + 1)
        && (r.Some? && r.value.status == "getcode" && r.value.body.CodeOrder? ==>
              && |posts| == |old(posts)| + 2
              && posts[|old(posts)| + 1].Stage4Req?
              && posts[|old(posts)| + 1] == Stage4Req(uid, pdata, cmd, posts[|old(posts)| + 1].gcode)
              && |posts[|old(posts)| + 1].gcode| >= r.value.body.num
              && (posts[|old(posts)| + 1].gcode == Zeros(r.value.body.num)
                  || posts[|old(posts)| + 1].gcode == Flatten(keyFeed, old(keyCalls), keyCalls))
              && !keypadRunning)
      ensures |posts| == |old(posts)| + 2 ==>
        var r2 := ReplyAt(replies, |old(posts)| + 1);
        && (r2.None? ==> trip == Broken(3))
        && (r2.Some? ==> trip == Finished(cmd, Some(r2.value.status == "done")))
        && (trip == Finished(cmd, Some(true)) ==> light.pixels == Shows(GREEN))
        && (trip == Finished(cmd, Some(false)) ==> light.pixels == Shows(RED))
    {
      var r := Post(Stage3Req(uid, pdata, cmd));
      if r.None? {
        light.Led(RED);
        return Broken(3);
      }
      if r.value.status != "getcode" {
        return Finished(cmd, None);
      }
      if !r.value.body.CodeOrder? {
        light.Led(RED);
        return Broken(3);
      }
      var gcode := GetStage4Code(r.value.body.num);
      var r2 := Post(Stage4Req(uid, pdata, cmd, gcode));
      if r2.None? {
        light.Led(RED);
        return Broken(3);
      }
      if r2.value.status == "done" {
        light.Led(GREEN);
        trip := Finished(cmd, Some(true));
      } else {
        light.Led(RED);
        trip := Finished(cmd, Some(false));
      }
    }

    /**
     * The write step of stage 2: authenticates the block with key B, writes
     * the new text, reads it back (GREEN) and runs the long-tap check (PINK
     * for "close"). Stops with AuthFailed(3) on a refused key and with
     * Broken(2) when the write raised or the read-back failed, RED in both.
     */
    method StampBlock(block: int, key: seq<Byte>, txt: seq<Byte>) returns (stop: Option<Trip>, written: string, cmd: string)
      requires light.Valid()
      modifies light, reader
      ensures light.Valid()
      ensures |old(reader.log)| < |reader.log| && reader.log[..|old(reader.log)|] == old(reader.log)
      ensures reader.log[|old(reader.log)|] == AuthOp(Mfrc522.AUTHENT1B, block, key)
      ensures stop == Some(AuthFailed(3)) <==> !reader.card.authorises(Mfrc522.AUTHENT1B, block, key)
      ensures stop == Some(AuthFailed(3)) ==> reader.log == old(reader.log) + [AuthOp(Mfrc522.AUTHENT1B, block, key)]
      ensures reader.card.authorises(Mfrc522.AUTHENT1B, block, key) ==>
        |old(reader.log)| + 1 < |reader.log| && reader.log[|old(reader.log)| + 1] == WriteOp(block, txt)
      ensures stop.Some? ==> (stop.value == AuthFailed(3) || stop.value == Broken(2)) && light.pixels == Shows(RED)
      ensures stop.None? ==>
        && ReadAt(reader.card, old(reader.readCount)).Some?
        && written == Chars(ReadAt(reader.card, old(reader.readCount)).value)
        && (cmd == "close" || cmd == "open")
        && (written != "nope" ==>
              (cmd == "close" <==> AllReread(reader.card, old(reader.readCount) + 1)
                                   && Chars(ReadAt(reader.card, old(reader.readCount) + 4).value) == written))
        && light.pixels == Shows(if cmd == "close" then PINK else GREEN)
        && |old(reader.log)| + 2 < |reader.log|
    {
      written, cmd := "", "";
      var st := reader.Auth(Mfrc522.AUTHENT1B, block, key);
      if st != OK {
        light.Led(RED);
        return Some(AuthFailed(3)), written, cmd;
      }
      light.Feed();
      var _, raised := reader.Write(block, txt);
      if raised {
        light.Led(RED);
        return Some(Broken(2)), written, cmd;
      }
      var data := reader.Read(block);
      if data.None? {
        light.Led(RED);
        return Some(Broken(2)), written, cmd;
      }
      written := Chars(data.value);
      light.Led(GREEN);
      var pdata2;
      cmd, pdata2 := DoorCommand(reader, block, written);
      if cmd == "close" {
        light.Led(PINK);
      }
      stop := None;
    }

    /**
     * Stage 2: reports the text read from the anti-tamper block. Only a "kk"
     * reply carrying a write order continues: the block is authenticated with
     * key B, the new text is written and read back (GREEN), the long-tap check
     * picks the door command (PINK for "close"), and stage 3 follows with the
     * text read back. A refused reply or a failed key-B authentication shows
     * RED; a request that raised, a "kk" reply without a write order, a write
     * that raised or a read-back that failed show RED and break out.
     */
    method Stage2(uid: string, pdata: string) returns (trip: Trip)
      requires Valid()
      modifies this, light, reader
      ensures Valid() && old(keyCalls) <= keyCalls
      ensures !old(keypadRunning) ==> !keypadRunning
      ensures |old(posts)| < |posts| && posts[..|old(posts)| + 1] == old(posts) + [Stage2Req(uid, pdata)]
      ensures |old(reader.log)| <= |reader.log| && reader.log[..|old(reader.log)|] == old(reader.log)
      ensures trip.Broken? ==> light.pixels == Shows(RED)
      ensures var r := ReplyAt(replies, |old(posts)|);
        && (r.None? ==> trip == Broken(2) && reader.log == old(reader.log))
        && (r.Some? && r.value.status != "kk" ==> trip == Refused(2) && light.pixels == Shows(RED) && reader.log == old(reader.log))
        && (r.Some? && r.value.status == "kk" && !r.value.body.WriteOrder? ==> trip == Broken(2) && reader.log == old(reader.log))
        && (r.Some? && r.value.status == "kk" && r.value.body.WriteOrder? ==>
              var w := r.value.body;
              && |old(reader.log)| < |reader.log|
              && reader.log[|old(reader.log)|] == AuthOp(Mfrc522.AUTHENT1B, w.block, w.key)
              && (!reader.card.authorises(Mfrc522.AUTHENT1B, w.block, w.key) <==> trip == AuthFailed(3))
              && (trip == AuthFailed(3) ==> light.pixels == Shows(RED) && reader.log == old(reader.log) + [AuthOp(Mfrc522.AUTHENT1B, w.block, w.key)])
              && (reader.card.authorises(Mfrc522.AUTHENT1B, w.block, w.key) ==>
                    |old(reader.log)| + 1 < |reader.log| && reader.log[|old(reader.log)| + 1] == WriteOp(w.block, w.txt)))
      ensures trip.Finished? ==>
        && |old(posts)| + 1 < |posts|
        && ReadAt(reader.card, old(reader.readCount)).Some?
        && posts[|old(posts)| + 1] == Stage3Req(uid, Chars(ReadAt(reader.card, old(reader.readCount)).value), trip.doorCmd)
        && (trip.doorCmd == "close" || trip.doorCmd == "open")
        && (Chars(ReadAt(reader.card, old(reader.readCount)).value) != "nope" ==>
              (trip.doorCmd == "close" <==> AllReread(reader.card, old(reader.readCount) + 1)
                                            && Chars(ReadAt(reader.card, old(reader.readCount) + 4).value)
                                               == Chars(ReadAt(reader.card, old(reader.readCount)).value)))
      ensures trip.Broken? || trip.Finished? || trip == Refused(2) || trip == AuthFailed(3)
    {
      var r := Post(Stage2Req(uid, pdata));
      if r.None? {
        light.Led(RED);
        return Broken(2);
      }
      if r.value.status != "kk" {
        light.Led(RED);
        return Refused(2);
      }
      if !r.value.body.WriteOrder? {
        light.Led(RED);
        return Broken(2);
      }
      var w := r.value.body;
      var stop, written, cmd := StampBlock(w.block, w.key, w.txt);
      if stop.Some? {
        return stop.value;
      }
      trip := Stage3(uid, written, cmd);
    }

    /**
     * The read step of stage 1: authenticates the anti-tamper block with key
     * A and reads it. Stops with AuthFailed(1) (RED) on a refused key and with
     * Broken(1) (RED) when the read failed.
     */
    method ReadAntiTamper(block: int, key: seq<Byte>) returns (stop: Option<Trip>, pdata: string)
      requires light.Valid()
      modifies light, reader
      ensures light.Valid()
      ensures |old(reader.log)| < |reader.log| && reader.log[|old(reader.log)|] == AuthOp(Mfrc522.AUTHENT1A, block, key)
      ensures stop == Some(AuthFailed(1)) <==> !reader.card.authorises(Mfrc522.AUTHENT1A, block, key)
      ensures reader.card.authorises(Mfrc522.AUTHENT1A, block, key) ==>
        reader.log == old(reader.log) + [AuthOp(Mfrc522.AUTHENT1A, block, key), ReadOp(block)] && reader.readCount == old(reader.readCount) + 1
      ensures stop.Some? ==> (stop.value == AuthFailed(1) || stop.value == Broken(1)) && light.pixels == Shows(RED)
      ensures stop.None? <==> reader.card.authorises(Mfrc522.AUTHENT1A, block, key) && ReadAt(reader.card, old(reader.readCount)).Some?
      ensures stop.None? ==> pdata == Chars(ReadAt(reader.card, old(reader.readCount)).value)
    {
      pdata := "";
      var st := reader.Auth(Mfrc522.AUTHENT1A, block, key);
      if st != OK {
        light.Led(RED);
        return Some(AuthFailed(1)), pdata;
      }
      var data := reader.Read(block);
      if data.None? {
        light.Led(RED);
        return Some(Broken(1)), pdata;
      }
      pdata := Chars(data.value);
      stop := None;
    }

    /**
     * Stage 1: reports the card's UID. "k" with a read order reads the
     * anti-tamper block and goes on to stage 2; "init" provisions the card
     * and "reset" wipes it (BLUE while working, GREEN after); any other status
     * shows RED. A request that raised or a reply whose fields do not fit its
     * status shows RED and breaks out (Broken(1)).
     */
    method Stage1(rawUid: seq<Byte>) returns (trip: Trip)
      requires Valid() && |rawUid| == 5
      modifies this, light, reader
      ensures Valid() && old(keyCalls) <= keyCalls
      ensures !old(keypadRunning) ==> !keypadRunning
      ensures |old(posts)| < |posts| && posts[..|old(posts)| + 1] == old(posts) + [Stage1Req(HexUid(rawUid))]
      ensures trip.Broken? || trip.Refused? || trip.AuthFailed? || trip.Provisioned? || trip.Wiped? || trip.Finished?
      ensures trip.Broken? ==> light.pixels == Shows(RED)
      ensures var r := ReplyAt(replies, |old(posts)|);
        && (r.None? ==> trip == Broken(1) && reader.log == old(reader.log))
        && (r.Some? && r.value.status !in {"k", "init", "reset"} ==>
              trip == Refused(1) && light.pixels == Shows(RED) && reader.log == old(reader.log) && posts == old(posts) + [Stage1Req(HexUid(rawUid))])
        && (r.Some? && r.value.status == "init" ==>
              if r.value.body.InitOrder?
              then && reader.log == old(reader.log) + InitRun(reader.card, r.value.body.provision).ops
                   && trip == (if InitRun(reader.card, r.value.body.provision).raised then Broken(1) else Provisioned)
                   && (trip == Provisioned ==> light.pixels == Shows(GREEN))
              else trip == Broken(1) && reader.log == old(reader.log))
        && (r.Some? && r.value.status == "reset" ==>
              if r.value.body.ResetOrder?
              then && reader.log == old(reader.log) + ResetRun(reader.card, r.value.body.keyB).ops
                   && trip == (if ResetRun(reader.card, r.value.body.keyB).raised then Broken(1) else Wiped)
                   && (trip == Wiped ==> light.pixels == Shows(GREEN))
              else trip == Broken(1) && reader.log == old(reader.log))
        && (r.Some? && r.value.status == "k" && !r.value.body.ReadOrder? ==> trip == Broken(1) && reader.log == old(reader.log))
        && (r.Some? && r.value.status == "k" && r.value.body.ReadOrder? ==>
              && |old(reader.log)| < |reader.log|
              && reader.log[|old(reader.log)|] == AuthOp(Mfrc522.AUTHENT1A, r.value.body.block, r.value.body.key)
              && (trip == AuthFailed(1) <==> !reader.card.authorises(Mfrc522.AUTHENT1A, r.value.body.block, r.value.body.key)))
      ensures |old(posts)| + 1 < |posts| ==>
        && ReplyAt(replies, |old(posts)|).Some? && ReplyAt(replies, |old(posts)|).value.status == "k"
        && ReadAt(reader.card, old(reader.readCount)).Some?
        && posts[|old(posts)| + 1] == Stage2Req(HexUid(rawUid), Chars(ReadAt(reader.card, old(reader.readCount)).value))
    {
      var uid := HexUid(rawUid);
      var r := Post(Stage1Req(uid));
      if r.None? {
        light.Led(RED);
        return Broken(1);
      }
      var status := r.value.status;
      if status == "k" {
        if !r.value.body.ReadOrder? {
          light.Led(RED);
          return Broken(1);
        }
        trip := ReadStage(uid, r.value.body.block, r.value.body.key);
      } else if status == "init" {
        trip := InitStage(r.value.body);
      } else if status == "reset" {
        trip := ResetStage(r.value.body);
      } else {
        light.Led(RED);
        trip := Refused(1);
      }
    }

    /**
     * The "init" branch of stage 1: BLUE, provision the card, GREEN. A reply
     * without the init fields raises before any card call; a raise part-way
     * through the pass keeps the calls made so far. Either shows RED and
     * breaks out (Broken(1)).
     */
    method InitStage(body: Body) returns (trip: Trip)
      requires light.Valid()
      modifies light, reader
      ensures light.Valid()
      ensures body.InitOrder? ==>
        && reader.log == old(reader.log) + InitRun(reader.card, body.provision).ops
        && trip == (if InitRun(reader.card, body.provision).raised then Broken(1) else Provisioned)
      ensures !body.InitOrder? ==> trip == Broken(1) && reader.log == old(reader.log)
      ensures light.pixels == Shows(if trip == Provisioned then GREEN else RED)
    {
      light.Led(BLUE);
      if !body.InitOrder? {
        light.Led(RED);
        return Broken(1);
      }
      var raised := InitCard(reader, body.provision);
      if raised {
        light.Led(RED);
        return Broken(1);
      }
      light.Led(GREEN);
      trip := Provisioned;
    }

    /**
     * The "reset" branch of stage 1: BLUE, wipe the card, GREEN; RED and
     * Broken(1) for a reply without the reset field or a wipe that raised.
     */
    method ResetStage(body: Body) returns (trip: Trip)
      requires light.Valid()
      modifies light, reader
      ensures light.Valid()
      ensures body.ResetOrder? ==>
        && reader.log == old(reader.log) + ResetRun(reader.card, body.keyB).ops
        && trip == (if ResetRun(reader.card, body.keyB).raised then Broken(1) else Wiped)
      ensures !body.ResetOrder? ==> trip == Broken(1) && reader.log == old(reader.log)
      ensures light.pixels == Shows(if trip == Wiped then GREEN else RED)
    {
      light.Led(BLUE);
      if !body.ResetOrder? {
        light.Led(RED);
        return Broken(1);
      }
      var raised := ResetCard(reader, body.keyB);
      if raised {
        light.Led(RED);
        return Broken(1);
      }
      light.Led(GREEN);
      trip := Wiped;
    }

    /** The "k" branch of stage 1: read the anti-tamper block with key A, then stage 2 with its text. */
    method ReadStage(uid: string, block: int, key: seq<Byte>) returns (trip: Trip)
      requires Valid()
      modifies this, light, reader
      ensures Valid() && old(keyCalls) <= keyCalls
      ensures !old(keypadRunning) ==> !keypadRunning
      ensures |old(posts)| <= |posts| && posts[..|old(posts)|] == old(posts)
      ensures trip.Broken? || trip.Refused? || trip.AuthFailed? || trip.Finished?
      ensures trip.Broken? ==> light.pixels == Shows(RED)
      ensures |old(reader.log)| < |reader.log| && reader.log[|old(reader.log)|] == AuthOp(Mfrc522.AUTHENT1A, block, key)
      ensures trip == AuthFailed(1) <==> !reader.card.authorises(Mfrc522.AUTHENT1A, block, key)
      ensures |old(posts)| < |posts| ==>
        && ReadAt(reader.card, old(reader.readCount)).Some?
        && posts[|old(posts)|] == Stage2Req(uid, Chars(ReadAt(reader.card, old(reader.readCount)).value))
    {
      light.Feed();
      var stop, pdata := ReadAntiTamper(block, key);
      if stop.Some? {
        return stop.value;
      }
      trip := Stage2(uid, pdata);
    }

    /** Reports a card that answers the magic request (RED), with its UID or "00000000". */
    method ReportClone()
      requires Valid()
      modifies this, light, reader
      ensures Valid() && keypadRunning == old(keypadRunning) && keyCalls == old(keyCalls)
      ensures posts == old(posts) + [ChinaUidReq(if reader.card.uid.Some? then HexUid(reader.card.uid.value) else "00000000")]
      ensures light.pixels == Shows(RED)
      ensures reader.log == old(reader.log) + [RequestOp(Mfrc522.REQIDL), AnticollOp]
    {
      light.Led(RED);
      var _ := reader.Request(Mfrc522.REQIDL);
      var st, raw := reader.Anticoll();
      var uid := if st == OK then HexUid(raw) else "00000000";
      var _ := Post(ChinaUidReq(uid));
    }

    /**
     * A genuine card: anticollision, selection and stage 1. A card without a
     * checked UID is skipped, an unselectable one shows RED, and the crypto
     * unit is switched off after stage 1 unless it broke out.
     */
    method GenuinePass() returns (trip: Trip)
      requires Valid()
      modifies this, light, reader
      ensures Valid()
      ensures !old(keypadRunning) ==> !keypadRunning
      ensures trip.Broken? ==> light.pixels == Shows(RED)
      ensures var card := reader.card;
        && (trip == NoUid <==> card.uid.None?)
        && (trip == NotSelected <==> card.uid.Some? && !card.selectable)
      ensures trip == NoUid || trip == NotSelected ==> posts == old(posts)
      ensures trip == NotSelected ==> light.pixels == Shows(RED)
      ensures trip != NoCard && trip != ClonedCard
      ensures reader.card.uid.Some? && reader.card.selectable ==>
        && |old(posts)| < |posts|
        && posts[|old(posts)|] == Stage1Req(HexUid(reader.card.uid.value))
        && (!trip.Broken? ==> 0 < |reader.log| && reader.log[|reader.log| - 1] == StopCryptoOp)
    {
      var st, raw := reader.Anticoll();
      if st != OK {
        return NoUid;
      }
      light.Feed();
      var sel := reader.SelectTag(raw);
      if sel != OK {
        light.Led(RED);
        return NotSelected;
      }
      trip := Stage1(raw);
      if !trip.Broken? {
        reader.StopCrypto1();
      }
    }

    /**
     * One pass over the card in the field (the useNFC part of the main loop).
     * With no card nothing happens. Otherwise the keypad is stopped and the
     * light goes WHITE; a cloned card is reported, any other card goes
     * through GenuinePass. The keypad is restarted afterwards unless a stage
     * broke out, which leaves the main loop (`leave`).
     */
    method CardPass() returns (trip: Trip, leave: bool)
      requires Valid()
      modifies this, light, reader
      ensures Valid()
      ensures leave <==> trip.Broken?
      ensures leave ==> !keypadRunning && light.pixels == Shows(RED)
      ensures !leave && trip != NoCard ==> keypadRunning
      ensures var card := reader.card;
        && (trip == NoCard <==> !card.present)
        && (trip == ClonedCard <==> card.present && card.cloned)
        && (trip == NoUid <==> card.present && !card.cloned && card.uid.None?)
        && (trip == NotSelected <==> card.present && !card.cloned && card.uid.Some? && !card.selectable)
      ensures trip == NoCard ==>
        posts == old(posts) && keypadRunning == old(keypadRunning) && reader.log == old(reader.log) + [RequestOp(Mfrc522.REQIDL)]
      ensures trip == ClonedCard ==>
        && posts == old(posts) + [ChinaUidReq(if reader.card.uid.Some? then HexUid(reader.card.uid.value) else "00000000")]
        && light.pixels == Shows(RED)
      ensures trip == NoUid || trip == NotSelected ==> posts == old(posts)
      ensures reader.card.present && !reader.card.cloned && reader.card.uid.Some? && reader.card.selectable ==>
        && |old(posts)| < |posts|
        && posts[|old(posts)|] == Stage1Req(HexUid(reader.card.uid.value))
    {
      var stat := reader.Request(Mfrc522.REQIDL);
      if stat != OK {
        return NoCard, false;
      }
      keypadRunning := false;
      light.Led(WHITE);
      var cloned := reader.CheckChinaUID();
      if cloned {
        ReportClone();
        trip := ClonedCard;
      } else {
        trip := GenuinePass();
        if trip.Broken? {
          return trip, true;
        }
      }
      keypadRunning := true;
      leave := false;
    }

    /** How CardPass classifies a pass over the given card, as its contract states. */
    static predicate PassOutcome(card: Card, trip: Trip)
    {
      && (trip == NoCard <==> !card.present)
      && (trip == ClonedCard <==> card.present && card.cloned)
      && (trip == NoUid <==> card.present && !card.cloned && card.uid.None?)
      && (trip == NotSelected <==> card.present && !card.cloned && card.uid.Some? && !card.selectable)
    }

    /**
     * The main loop (do_work), bounded to `cycles` iterations: feed the
     * watchdog, turn the light OFF, handle the card in the field, then the
     * keypad-only entry. A broken stage leaves the loop at once.
     */
    method DoWork(cycles: nat) returns (trips: seq<Trip>)
      requires Valid()
      modifies this, light, reader
      ensures Valid()
      ensures |trips| <= cycles
      ensures forall i :: 0 <= i < |trips| - 1 ==> !trips[i].Broken?
      ensures |trips| < cycles ==> 0 < |trips| && trips[|trips| - 1].Broken?
      ensures 0 < |trips| && trips[|trips| - 1].Broken? ==> !keypadRunning && light.pixels == Shows(RED)
      ensures forall i :: 0 <= i < |trips| ==> PassOutcome(reader.card, trips[i])
    {
      trips := [];
      while |trips| < cycles
        invariant Valid()
        invariant |trips| <= cycles
        invariant forall i :: 0 <= i < |trips| ==> !trips[i].Broken?
        invariant forall i :: 0 <= i < |trips| ==> PassOutcome(reader.card, trips[i])
        decreases cycles - |trips|
      {
        light.Feed();
        light.Led(OFF);
        var trip, leave := CardPass();
        trips := trips + [trip];
        if leave {
          return;
        }
        var _ := KeypadOnly();
      }
    }
  }
}
