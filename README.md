# NFC door access control, modelled in Dafny

The system opens a door for MIFARE Classic key fobs. An ESP32 reader talks to
an authentication server written in PHP. The reader combines three parts:

- an MFRC522 contactless reader chip driven over SPI;
- a 4x4 matrix keypad scanned from a timer;
- a main loop that runs the protocol.

The protocol works in stages:

- **Stage 1.** The reader posts the card's UID. The server answers in one of three ways:
  - it sends the key that reads the "anti-tamper" block;
  - it orders the card provisioned ("init"), with random keys and filler;
  - it orders the card wiped ("reset").
- **Stage 2.** The reader posts the anti-tamper text. If it is right, the server sends a fresh text to write.
- **Stage 3.** The reader writes the fresh text, reads it back and posts it with a door command. The command is "close" when the card stays on the reader (a long tap) and "open" otherwise.
- **Stage 4.** If the fob has a second factor, the server asks for it. The second factor is a time-based one-time code (RFC 6238), a PIN, or both, typed on the keypad.

A keypad-only path sends a PIN and a code with no card.

The project models five parts of the system. Each Dafny module follows one source file:

- `mfrc522_chip.dfy` (module `Mfrc522Chip`): The MFRC522 as a value: register file, FIFO, interrupt schedule and CRC coprocessor. It covers the SPI address byte and the effect of each register access. `Exchange` is what one `_tocard` call returns for a given card answer.
- `mfrc522.dfy` (module `Mfrc522`): The driver class `MFRC522`: one method per driver routine. The class is proved against the chip model and a card "responder" function.
- `keypad_timer.dfy` (module `KeypadTimer`): The class `Keypad`: sixteen key states, the row cursor and the character buffer. `timer_callback` is one sequential step over the four column levels.
- `controller.dfy` (module `Controller`): The main loop: the status light and watchdog, card provisioning and wiping, the keypad entry loops, the long-tap classifier and the stage dispatch. The server's replies and the keypad's results are given as sequences.
- `php_values.dfy` (module `PhpValues`): Decimal digit strings, `substr`, `str_pad`, and PHP's loose `==` on strings and stored values.
- `gauth.dfy` (module `GAuth`): The TOTP helper class `Auth`: base32 decoding (section 6 of RFC 4648), dynamic truncation (section 5.3 of RFC 4226), zero-padding and window validation (section 5.2 of RFC 6238). HMAC-SHA1 is a parameter.
- `auth_server.dfy` (module `AuthServer`): The request handler as a class `Server`: the JSON database as a map from UID to record, and one method per branch. HMAC-SHA256, `rand()` and the door hooks are parameters or recorded events.
- `wrappers.dfy` (module `Wrappers`): `Option`.

Three places in the server code behave differently from what they evidently
intend; see "## Findings". The server model follows the code in all three:
stages 2 to 4 compare tag texts with loose `==`, a posted key may be a
boolean, and stage 4 validates the whole typed code, PIN included. The intended variants are separate members. `led` compares the status with a `lastled`
global, evidently to skip a repeated status. The code never reassigns
`lastled` (ESP32/main.py:66,130), so every call rewrites the pixels. The model follows the code
(`Controller.NoDebounce`).

## Model

| member | source | states |
|---|---|---|
| Mfrc522Chip.WriteAddress | ESP32/mfrc522.py:47-52 | The address byte of a register write has bit 7 (read) and bit 0 clear. |
| Mfrc522Chip.ReadAddress | ESP32/mfrc522.py:54-61 | The address byte of a register read has bit 7 set and bit 0 clear. |
| Mfrc522Chip.AddressedRegister | ESP32/mfrc522.py:47-61 | An address byte selects a register below 64. |
| Mfrc522Chip.AddressRoundTrip | ESP32/mfrc522.py:47-61 | Both encodings decode back to `reg & 0x3F`, and to `reg` itself for `reg < 64`. The write byte is not a read and the read byte is. The two bytes differ exactly in bit 7. |
| Mfrc522Chip.CrcA | ESP32/mfrc522.py:131-148 | The CRC the coprocessor computes is two bytes (CRC_A, preset 0x6363). |
| Mfrc522Chip.Start | ESP32/mfrc522.py:90-93 | Transmitting a frame, whatever the card answers, leaves the chip well-formed: a full register file and a FIFO of at most 64 bytes. |
| Mfrc522Chip.WriteReg | ESP32/mfrc522.py:47-52 | Writing any register keeps the chip well-formed. |
| Mfrc522Chip.ReadReg | ESP32/mfrc522.py:54-61 | Reading a register never transmits a frame and keeps the chip well-formed. |
| Mfrc522Chip.FlagsOnPlainRegister | ESP32/mfrc522.py:63-67 | On a register without side effects, `_sflags` leaves exactly `old \| mask` and `_cflags` exactly `old & ~mask`. Nothing else changes. |
| Mfrc522Chip.WritePlain | ESP32/mfrc522.py:47-52 | Writing a register without side effects only stores the value. |
| Mfrc522Chip.ReadOrdinary | ESP32/mfrc522.py:54-61 | Reading any register other than ComIrqReg, FIFODataReg and FIFOLevelReg returns its value and changes nothing. |
| Mfrc522Chip.FifoLevelRead | ESP32/mfrc522.py:111 | FIFOLevelReg reads as the number of bytes in the FIFO. That count survives the conversion to a byte. |
| Mfrc522Chip.FlushEmptiesFifo | ESP32/mfrc522.py:84 | Setting FlushBuffer empties the FIFO and changes nothing else. |
| Mfrc522Chip.ClearIrqEffect | ESP32/mfrc522.py:83 | Clearing Set1 in ComIrqReg costs one IRQ read. It changes no register but ComIrqReg, and no FIFO byte or frame. |
| Mfrc522Chip.WriteCommandEffect | ESP32/mfrc522.py:85-90 | Writing MFAuthent to CommandReg transmits the FIFO at once. Idle and Transceive are only stored. |
| Mfrc522Chip.StartSendEffect | ESP32/mfrc522.py:92-93 | Setting StartSend while CommandReg holds Transceive transmits the FIFO with the current TxLastBits. |
| Mfrc522Chip.StopSendEffect | ESP32/mfrc522.py:102 | Clearing StartSend only clears bit 7 of BitFramingReg. |
| Mfrc522Chip.WriteFramingEffect | ESP32/mfrc522.py:171-173 | Writing BitFramingReg without StartSend only stores the value. |
| Mfrc522Chip.CalcCrcEffect | ESP32/mfrc522.py:139-148 | CalcCRC puts CRC_A of the FIFO into CRCResultRegL/H and sets CRCIRq. It consumes the FIFO and touches no other register. |
| Mfrc522Chip.SoftResetEffect | ESP32/mfrc522.py:161-162 | SoftReset stores the command, empties the FIFO and cancels pending interrupts. |
| Mfrc522Chip.PollReads | ESP32/mfrc522.py:95-100 | The poll makes at least one read more than it has made and never more than 500. |
| Mfrc522Chip.PollReadsStopsAtFirstHit | ESP32/mfrc522.py:95-100 | Every read before the last shows no bit of `wait_irq`. Unless the limit of 500 was reached, the last read shows one. |
| Mfrc522Chip.PollReadsIs | ESP32/mfrc522.py:95-100 | The converse: a read count with no earlier hit and a hit (or the limit) at its end is the poll's count. |
| Mfrc522Chip.TimerBitDoesNotStopPoll | ESP32/mfrc522.py:99 | With no `wait_irq` bit ever shown, the poll runs all 500 reads. Timer bit 0x01 alone does not end it. |
| Mfrc522Chip.AfterIrqReads | ESP32/mfrc522.py:97 | Repeated ComIrqReg reads keep the chip well-formed. |
| Mfrc522Chip.ReadIrqStep | ESP32/mfrc522.py:97 | Read k of ComIrqReg returns the k-th scheduled value (the last shown once the schedule runs out) and advances the read count. |
| Mfrc522Chip.Clamp | ESP32/mfrc522.py:118-121 | The received byte count lies in 1..16 and equals the FIFO level when that level is already in range. |
| Mfrc522Chip.Pops | ESP32/mfrc522.py:123-124 | Draining k bytes yields exactly k bytes: the FIFO's first k while it has them. |
| Mfrc522Chip.Exchange | ESP32/mfrc522.py:69-129 | `_tocard`'s status, bytes and bits. ERR exactly when the poll hit the limit or ErrorReg & 0x1B is set. NOTAGERR exactly when the last IRQ value read has an enabled timer bit. Only OK receives anything. For an OK transceive, the bits follow the FIFO level and RxLastBits, and the bytes are the FIFO level clamped to 1..16. An authentication receives nothing. |
| Mfrc522.PollTestReduces | ESP32/mfrc522.py:99 | With Python's `and` and integer `~`, the break test holds exactly when the counter is 0 or `n & wait_irq != 0`. |
| Mfrc522.PollStops | ESP32/mfrc522.py:99 | Evaluating the break test gives the same answer: stop exactly when the counter is 0 or a wait bit shows. |
| Mfrc522.AntennaTestAlwaysTrue | ESP32/mfrc522.py:166 | `~(TxControlReg & 0x03)` is never 0, so the test is always true. |
| Mfrc522.Trailer | ESP32/mfrc522.py:291-297 | A trailer is `keyA[:6]`, four access bytes and `keyB[:6]`: 16 bytes, with each part in its place, when both keys have 6 bytes. |
| Mfrc522.XorFoldFirstFour | ESP32/mfrc522.py:201-202 | The loop's fold of the first four UID bytes is their BCC. |
| Mfrc522.TrailerAddressIsLastBlock | ESP32/mfrc522.py:290 | Sector s's table entry is block 4s+3, the last block of sector s. |
| Mfrc522.TrailerKey | ESP32/mfrc522.py:291-297 | The list built by `extend`/`append` is the trailer layout. |
| Mfrc522.WriteUsesFirstSixteen | ESP32/mfrc522.py:254-256 | Two data buffers that agree on their first 16 bytes send the same frames and get the same status. |
| Mfrc522.WriteOkNeedsBothAcks | ESP32/mfrc522.py:245-262 | An OK write had at least 16 data bytes and sent the command frame and then the data frame. The card acknowledged both: 4 bits with low nibble 0xA. |
| Mfrc522.MFRC522.constructor | ESP32/mfrc522.py:22-45 | After power-on and `init`, the chip is configured and no frame has been sent. |
| Mfrc522.MFRC522.Wreg | ESP32/mfrc522.py:47-52 | The chip after the write is `WriteReg` of the addressed register (`reg & 0x3F`). |
| Mfrc522.MFRC522.Rreg | ESP32/mfrc522.py:54-61 | The value and the new chip are `ReadReg` of the addressed register. |
| Mfrc522.MFRC522.SFlags | ESP32/mfrc522.py:63-64 | The chip after the read-modify-write is `SetFlags`. |
| Mfrc522.MFRC522.CFlags | ESP32/mfrc522.py:66-67 | The chip after the read-modify-write is `ClearFlags`. |
| Mfrc522.MFRC522.Flush | ESP32/mfrc522.py:84 | The FIFO is empty and nothing else changed. |
| Mfrc522.MFRC522.Fill | ESP32/mfrc522.py:88-89 | The FIFO holds the send bytes, at most 64 (later bytes are lost), and nothing else changed. |
| Mfrc522.MFRC522.Prepare | ESP32/mfrc522.py:82-89 | Interrupts are enabled as `irq_en \| 0x80`, the FIFO holds the send bytes, and only registers 1, 2 and 4 changed. |
| Mfrc522.MFRC522.Launch | ESP32/mfrc522.py:90-93 | Exactly one frame (FIFO, TxLastBits) went out. The card's answer is in the FIFO and the IRQ, error and control registers. |
| Mfrc522.MFRC522.Load | ESP32/mfrc522.py:82-93 | Composition of Prepare and Launch: one frame carrying the send bytes, and the reply loaded. |
| Mfrc522.MFRC522.Poll | ESP32/mfrc522.py:95-100 | The loop ends with counter `500 - PollReads`, `n` the last IRQ value read, and the chip after that many reads. |
| Mfrc522.MFRC522.Drain | ESP32/mfrc522.py:123-124 | The received bytes are `Pops` of the FIFO and the FIFO loses them. |
| Mfrc522.MFRC522.ReadAnswer | ESP32/mfrc522.py:111-124 | The bit count comes from the FIFO level and RxLastBits. The bytes are the clamped drain. |
| Mfrc522.MFRC522.Conclude | ESP32/mfrc522.py:102-129 | The status, bytes and bits are `Exchange` of the card's reply. Only StartSend changes among the registers. |
| Mfrc522.MFRC522.ToCard | ESP32/mfrc522.py:69-129 | One frame is sent: the command with the first 64 send bytes. The result is the card's outcome for it. ComIrqReg is read once to clear it and then once per poll. StartSend ends cleared, and registers outside 1, 2, 4, 6, 12 and 13 are untouched. |
| Mfrc522.MFRC522.Crc | ESP32/mfrc522.py:131-148 | The result is CRC_A of the (at most 64) data bytes. No frame is sent, and the FIFO is left empty. |
| Mfrc522.MFRC522.Reset | ESP32/mfrc522.py:161-162 | CommandReg holds SoftReset, and the FIFO and pending interrupts are cleared. |
| Mfrc522.MFRC522.AntennaOn | ESP32/mfrc522.py:164-169 | `on` always sets both driver bits (the test is always true). `off` clears them. Nothing else changes. |
| Mfrc522.MFRC522.Init | ESP32/mfrc522.py:150-159 | The timer, ASK, CRC preset and antenna registers are configured. No frame is sent. |
| Mfrc522.MFRC522.SetFraming | ESP32/mfrc522.py:173 | Writing BitFramingReg stores TxLastBits and sends nothing. |
| Mfrc522.MFRC522.Request | ESP32/mfrc522.py:171-179 | Sends the mode byte in a 7-bit frame. OK exactly when the transfer is OK with 0x10 bits, otherwise ERR. The bit count is returned. |
| Mfrc522.MFRC522.RequestRawAnswer | ESP32/mfrc522.py:181-189 | Sends the same 7-bit frame. OK exactly when the transfer is OK (with at least one byte), otherwise ERR. The raw bytes and bits are returned. |
| Mfrc522.MFRC522.Anticoll | ESP32/mfrc522.py:191-208 | Sends 0x93 0x20. OK exactly when the transfer is OK, five bytes came back and the fifth is the BCC of the first four. The bytes are returned either way. |
| Mfrc522.MFRC522.Halt | ESP32/mfrc522.py:210-215 | Sends HLTA 0x50 0x00 with CRC. OK exactly on an OK transfer of 0x18 bits. |
| Mfrc522.MFRC522.Wake | ESP32/mfrc522.py:219-222 | Sends WUPA 0x52 with the current TxLastBits. OK exactly on 0x18 bits. |
| Mfrc522.MFRC522.SelectTag | ESP32/mfrc522.py:225-230 | Sends 0x93 0x70, the first five UID bytes and their CRC. OK exactly on 0x18 bits. |
| Mfrc522.MFRC522.Auth | ESP32/mfrc522.py:232-233 | Sends mode, block, key and the first four UID bytes with MFAuthent, and returns the card's status. |
| Mfrc522.MFRC522.StopCrypto1 | ESP32/mfrc522.py:235-236 | Clears MFCrypto1On in Status2Reg and nothing else. |
| Mfrc522.MFRC522.Read | ESP32/mfrc522.py:238-243 | Sends 0x30 with the block and CRC. Returns the bytes on OK and None otherwise. |
| Mfrc522.MFRC522.Write | ESP32/mfrc522.py:245-262 | Sends the command frame. The data frame follows only after an acknowledgement. Fewer than 16 data bytes raise at that point. The status is OK exactly when both phases were acknowledged. |
| Mfrc522.MFRC522.WriteData | ESP32/mfrc522.py:254-260 | Short data raises before anything is sent. Otherwise the first 16 bytes with CRC go out, and the status is OK exactly on an acknowledgement. |
| Mfrc522.MFRC522.CheckChinaUID | ESP32/mfrc522.py:264-285 | Sends exactly HLTA, the 7-bit magic 0x40 and WUPA (always). True exactly when the magic request was OK with first byte 0x0A. |
| Mfrc522.MFRC522.SetKey | ESP32/mfrc522.py:288-300 | A sector outside -16..15 raises and sends nothing. Otherwise the write sends to the sector's trailer: key A, access bytes 78 77 88 69, then key B. |
| Mfrc522.MFRC522.ReSetKeyOpen | ESP32/mfrc522.py:301-313 | The same with the transport access bytes FF 07 80 69. |
| Mfrc522.MFRC522.WriteTrailer | ESP32/mfrc522.py:298-300 | The table lookup (Python indexing) followed by the write of the trailer. |
| KeypadTimer.LabelsDistinct | ESP32/keypad_timer.py:74-79 | The label table has sixteen distinct characters. |
| KeypadTimer.Pressed | ESP32/keypad_timer.py:166-176 | A scan of n columns appends at most n characters. |
| KeypadTimer.LastPressed | ESP32/keypad_timer.py:171-172 | The new key code is the last DOWN event of the row: a DOWN event at that column and none after it. None exactly when there is no DOWN event. |
| KeypadTimer.PressedEmptyIffNone | ESP32/keypad_timer.py:166-176 | The buffer grows exactly when a key code is set. |
| KeypadTimer.PressedEndsWithLast | ESP32/keypad_timer.py:171-173 | The last character appended is that of the key the key code names. |
| KeypadTimer.QuietKeyAddsNothing | ESP32/keypad_timer.py:164-176 | A key that gives no DOWN event adds no character. |
| KeypadTimer.HeldKeyAddsOnce | ESP32/keypad_timer.py:122-125 | A key still held in the next scan of its row adds its character no second time. |
| KeypadTimer.ScanTouchesOnlyItsRow | ESP32/keypad_timer.py:164-176 | A scan leaves the keys of every other row unchanged. |
| KeypadTimer.Keypad.constructor | ESP32/keypad_timer.py:71-101 | All 16 keys are UP with the labels `1 2 3 A / 4 5 6 B / 7 8 9 C / * 0 # D`. The cursor is on row 0, there is no key code, the buffer is empty and the timer is off. |
| KeypadTimer.Keypad.GetKey | ESP32/keypad_timer.py:105-113 | Returns the buffer, then leaves it empty and the key code None. The cursor is unchanged. |
| KeypadTimer.Keypad.KeyProcess | ESP32/keypad_timer.py:117-131 | Reports DOWN exactly when the column is high and the key was UP. Reports UP exactly when it is low and the key was DOWN. Otherwise nothing is reported and the state is unchanged. The key then follows its column, and no other key changes. |
| KeypadTimer.Keypad.ScanRowUpdate | ESP32/keypad_timer.py:135-148 | The cursor advances by one mod 4. The old row goes low, the new row high, and the other rows are unchanged. |
| KeypadTimer.Keypad.TimerCallback | ESP32/keypad_timer.py:152-178 | The row's keys follow the columns. The buffer gains the DOWN keys' labels in column order. The key code becomes the last of them, if any. The cursor moves on: the old row is released, the next one driven, and the other two rows' levels are kept. |
| KeypadTimer.Keypad.Start | ESP32/keypad_timer.py:182-185 | The timer runs. The cursor and buffer are unchanged. |
| KeypadTimer.Keypad.Stop | ESP32/keypad_timer.py:190-192 | The timer is stopped. The cursor and buffer are unchanged. |
| KeypadTimer.GetKeyTwice | ESP32/keypad_timer.py:105-113 | A second `get_key` right after the first returns "". |
| Controller.Shows | ESP32/main.py:134-169 | Each status shows two pixels. An unknown status shows both off. |
| Controller.LedFrames | ESP32/main.py:128-169 | A status other than `lastled` first writes a dark frame and ends showing its table entry. There are two frames exactly for a known status. |
| Controller.NoDebounce | ESP32/main.py:128-132 | Repeating a status rewrites the strip both times: dark, colour, dark, colour. |
| Controller.StatusLight.Led | ESP32/main.py:128-169 | Feeds the watchdog once, appends the frames of `LedFrames`, and leaves the pixels showing the status. |
| Controller.StatusLight.Feed | ESP32/main.py:239 | Feeds the watchdog and leaves the pixels alone. |
| Controller.Reader.Request | ESP32/mfrc522.py:171-179 | The driver call as the main loop sees it: OK exactly when a card is present. |
| Controller.Reader.CheckChinaUID | ESP32/mfrc522.py:264-285 | True exactly for a cloned card. |
| Controller.Reader.Anticoll | ESP32/mfrc522.py:191-208 | OK exactly when the card yields a checked UID of 5 bytes. |
| Controller.Reader.SelectTag | ESP32/mfrc522.py:225-230 | OK exactly for a selectable card. |
| Controller.Reader.Auth | ESP32/mfrc522.py:232-233 | OK exactly when the card accepts the key for the block. |
| Controller.Reader.Read | ESP32/mfrc522.py:238-243 | Returns the card's next read answer and logs the read. |
| Controller.Reader.Write | ESP32/mfrc522.py:245-262 | Raises exactly when the card acknowledges the command and the data is shorter than 16 bytes. Otherwise OK exactly on acknowledgement. |
| Controller.Reader.SetKey | ESP32/mfrc522.py:288-300 | A sector outside -16..15 raises before any call. Otherwise the trailer write is logged, and it raises exactly when the card acknowledges it and a key is shorter than 6 bytes. |
| Controller.Reader.ReSetKeyOpen | ESP32/mfrc522.py:301-313 | Raises and logs like `SetKey`, for the reopening write. |
| Controller.Reader.StopCrypto1 | ESP32/mfrc522.py:235-236 | Logs the call. |
| Controller.PyIndex | ESP32/main.py:95 | A Python index in -len..len-1 names an element in range. A non-negative index is itself. |
| Controller.FillerIndexDistinct | ESP32/main.py:86-95 | For sectors 1..15 and blocks 0..2, `(i-4)*4+x` lies in -12..46 and is valid for the 60-entry filler. Distinct (i, x) read distinct entries. |
| Controller.InitData | ESP32/main.py:88-95 | With a reply of the server's shape, every data block of sectors 1..15 has data, and at least 16 bytes of it. Otherwise a filler index outside the list gives none (IndexError). |
| Controller.ShortTrailerIsShortWrite | ESP32/mfrc522.py:245-262 | The trailer `setKey` builds is shorter than 16 bytes exactly when one of its keys is shorter than 6, so that is when its write raises. |
| Controller.InitRun | ESP32/main.py:74-102 | `init` does nothing when `setantiblk` is empty. |
| Controller.InitSectorOk | ESP32/main.py:84-100 | Whatever the reply holds, each call of one sector's pass is one of three things: an auth with the default key, a write of a data block of that sector with its text or filler entry after a successful auth, or `setKey` with that sector's keys after a successful auth. |
| Controller.InitSectorsOk | ESP32/main.py:82-100 | Whatever the reply holds, over sectors 1..15 no trailer is written. Only blocks of authenticated sectors get the text or filler. Keys are set only after a successful auth. |
| Controller.InitCoversSectors | ESP32/main.py:84-97 | When the pass did not raise, every sector that accepts the default key has all three data blocks written with their text or filler entry, and its keys set. |
| Controller.WellFormedInitNeverRaises | ESP32/main.py:82-97 | A reply of the server's shape provisions any card without raising: at least 16 key pairs of at least 6 bytes, a filler list covering indices -12..46 with entries of at least 16 bytes, and a text of at least 16 bytes. |
| Controller.AntiBlockGetsText | ESP32/main.py:90-92 | The block named by `setantiblk` gets exactly `txt`. |
| Controller.InitBlockPass | ESP32/main.py:87-95 | One block's write is `InitWrite`: the text on its block, else the filler entry. A missing entry raises before any call. |
| Controller.InitSectorPass | ESP32/main.py:83-100 | One sector's calls are `InitSector`'s, and the method raises exactly when it does. A missing key pair raises before `setKey`. |
| Controller.InitWritesPass | ESP32/main.py:86-95 | The three data writes of a sector are `InitWrites`, and the loop stops at the first write that raises. |
| Controller.InitSectorsPass | ESP32/main.py:82-100 | The loop over sectors 1..15 issues `InitSectors`, and stops at the first sector that raises. |
| Controller.InitCard | ESP32/main.py:74-102 | The reader's log grows by exactly `InitRun`'s calls: block 2, then sectors 1..15. It raises exactly when `InitRun` does, and the calls before the raise stay made. |
| Controller.ResetRun | ESP32/main.py:104-126 | `reset` does nothing when `keyb` is empty. |
| Controller.ResetStopsAtMissingKey | ESP32/main.py:106-114 | A `keyb` list with fewer than 16 entries (a null one counts as empty) wipes block 2 and the sectors it has keys for. It then raises at the first sector whose key is missing. |
| Controller.FullKeysResetNeverRaises | ESP32/main.py:106-124 | A `keyb` list of 16 or more keys wipes any card without raising. |
| Controller.ResetSectorOk | ESP32/main.py:112-124 | Whatever the reply holds, each call of one sector's wipe is an auth with that sector's key B, a zero write after it succeeded, or a reopening after it succeeded. |
| Controller.ResetSectorsOk | ESP32/main.py:112-124 | Whatever the reply holds, only zeros are written, only to data blocks of sectors whose key-B auth succeeded. Only those sectors' trailers are reopened. |
| Controller.ResetCoversSectors | ESP32/main.py:114-121 | When the wipe did not raise, every sector had a key B, and every sector that accepts it has all three data blocks zeroed and its trailer reopened with default keys. |
| Controller.ResetSectorPass | ESP32/main.py:113-124 | One sector's calls are `ResetSector`'s, and the method raises exactly when it does: a missing key B raises before the auth. |
| Controller.ResetSectorsPass | ESP32/main.py:112-124 | The loop over sectors 1..15 issues `ResetSectors`, and stops at the first sector that raises. |
| Controller.ResetCard | ESP32/main.py:104-126 | The reader's log grows by exactly `ResetRun`'s calls. It raises exactly when `ResetRun` does, and the calls before the raise stay made. |
| Controller.Chars | ESP32/main.py:279 | The text has one character per byte. |
| Controller.CharsInjective | ESP32/main.py:279 | Equal texts come from equal bytes, so comparing texts compares the blocks read. |
| Controller.DoorCommand | ESP32/main.py:307-327 | There are one to four reads of the block. The command is "close" exactly when all four answered and the last equals the text read after the write. A failed read stops the re-reads and leaves "nope", hence "open". |
| Controller.FlattenSilent | ESP32/main.py:183-220 | A run of `get_key` calls collected nothing exactly when every call returned "". |
| Controller.NoAbortExtend | ESP32/main.py:209-217 | One more call that is not an abort key keeps "no abort after the first batch". |
| Controller.Zeros | ESP32/main.py:229 | `"0"*n` has n zeros (none for negative n). |
| Controller.NibbleChar | ESP32/main.py:261 | A nibble's digit is in 0-9 or a-f. |
| Controller.Hex2 | ESP32/main.py:261 | `%02x` of a byte has two characters. |
| Controller.HexUid | ESP32/main.py:261 | The UID text has eight characters. |
| Controller.NibbleCharInjective | ESP32/main.py:261 | Distinct nibbles have distinct digits. |
| Controller.Hex2Injective | ESP32/main.py:261 | `%02x` is injective. |
| Controller.HexUidParts | ESP32/main.py:261 | Each of the four bytes owns two characters of the UID text. |
| Controller.HexUidInjective | ESP32/main.py:261 | Equal UID texts mean equal first four UID bytes. |
| Controller.StatusLight.constructor | ESP32/main.py:493 | The pixels start off and the watchdog unfed. |
| Controller.Reader.constructor | ESP32/main.py:495 | Empty log and no reads for the given card. |
| Controller.Station.constructor | ESP32/main.py:492-498 | No post and no `get_key` call yet. The keypad runs. |
| Controller.Station.Post | ESP32/main.py:263-265 | Appends the request and returns the next reply. |
| Controller.Station.GetKey | ESP32/main.py:184-186 | Returns the next `get_key` result. |
| Controller.Station.WaitTick | ESP32/main.py:183-197 | A poll before the first batch costs 5 ticks and keeps the entry invariant. |
| Controller.Station.FirstPoll | ESP32/main.py:184-186 | The batch read becomes both `testkey` and `key`. Five ticks per poll still hold and no abort is possible yet. |
| Controller.Station.ReadMore | ESP32/main.py:208-219 | An exact "#" or "*" aborts. A new batch is appended and grows the key. An empty read changes nothing. |
| Controller.Station.EntryTick | ESP32/main.py:198-220 | With n characters the entry completes and stops the keypad. An abort key abandons it. A new batch resets the count to 0. Otherwise the count grows by 1. |
| Controller.Station.EntryLoop | ESP32/main.py:180-224 | The polling loop ends complete with at least n characters collected, abandoned on an abort key after a non-empty batch, or pending after 600 ticks; until then the collected text is every batch read. |
| Controller.Station.Stage4Entry | ESP32/main.py:176-224 | Completes only with at least n collected characters and no abort after the first batch. 120 silent polls (600 ticks) end it incomplete. An abort key after a batch ends it incomplete. The keypad is stopped. |
| Controller.Station.GetStage4Code | ESP32/main.py:171-229 | The result has at least n characters: the collected batches, or `"0"*n` on abort or timeout. The keypad is stopped on every path. |
| Controller.Station.SendKeyAuth | ESP32/main.py:438-459 | Posts the keyauth request. GREEN exactly on status "kk", RED otherwise (a failed request included). The keypad runs again. |
| Controller.Station.CollectTick | ESP32/main.py:462-473 | An abort key ends entry. A new batch resets the count. An empty read keeps the count. |
| Controller.Station.KeypadCollect | ESP32/main.py:433-479 | Completes only with at least 10 characters and no abort. An abort key, or 100 ticks without a key, ends it incomplete. |
| Controller.Station.KeypadOnly | ESP32/main.py:424-485 | Nothing is posted unless at least 10 characters were collected with no abort. Then exactly one keyauth request is posted, and GREEN shows exactly on "kk". An empty first read, an abort or 100 silent ticks post nothing. |
| Controller.Station.Stage3 | ESP32/main.py:328-364 | Posts stage 3. "getcode" with a count leads to one stage-4 post, with the keypad stopped. Its code is either "0"*num or exactly the keypad batches read during entry, and has at least num characters. The stage-4 reply "done" shows GREEN, any other status RED. Another stage-3 status finishes the visit as it stands. A failed request, or "getcode" without a count, is Broken(3) with RED. |
| Controller.Station.StampBlock | ESP32/main.py:299-327 | Authenticates with key B. A refusal is AuthFailed(3) with RED. After success the next call is the write of the new text. A raised write or failed read-back is Broken(2). Otherwise it returns the read-back text and the door command. The command is "close" exactly when all four re-reads answer and the last one equals the read-back text (for a text other than "nope"), and "open" otherwise. The light ends PINK for "close" and GREEN for "open". |
| Controller.Station.Stage2 | ESP32/main.py:285-378 | Posts stage 2. Only "kk" with a write order continues (key-B auth, write, stage 3 with the text read back). The stage-3 door command follows the long-tap rule: "close" exactly when all four re-reads answer and the last equals the read-back text (for a text other than "nope"). Another status is Refused(2) with RED. A failed request, or "kk" without an order, is Broken(2). |
| Controller.Station.ReadAntiTamper | ESP32/main.py:277-281 | Authenticates with key A. A refusal is AuthFailed(1) with RED. Otherwise it reads, giving the text on success and Broken(1) on failure. |
| Controller.Station.ReadStage | ESP32/main.py:268-292 | The "k" branch: key-A auth first. AuthFailed(1) exactly on refusal. A stage-2 post carries the text read. |
| Controller.Station.InitStage | ESP32/main.py:382-400 | An init order runs the provisioning pass. It ends GREEN (Provisioned) unless the pass raised; then it ends RED (Broken(1)), and the calls made before the raise are kept. A reply without the init fields is Broken(1) with RED and no card call. |
| Controller.Station.ResetStage | ESP32/main.py:386-400 | A reset order runs the wipe. It ends GREEN (Wiped) unless the wipe raised; then it ends RED (Broken(1)), and the calls made before the raise are kept. A reply without the reset field is Broken(1) with RED and no card call. |
| Controller.Station.Stage1 | ESP32/main.py:262-400 | Posts stage 1 with the hex UID. "k", "init" and "reset" take their branches; a provisioning or wipe that raised part-way is Broken(1) after the calls it made. Any other status is Refused(1) with RED. A failed request, or fields that do not fit the status, are Broken(1) with RED. |
| Controller.Station.ReportClone | ESP32/main.py:406-422 | Shows RED, requests and anticollides again, then posts chinauid with the UID or "00000000". |
| Controller.Station.GenuinePass | ESP32/main.py:247-405 | No checked UID means no post. An unselectable card shows RED with no post. Otherwise stage 1 is posted for the UID, and the crypto unit is switched off unless a stage broke out. |
| Controller.Station.CardPass | ESP32/main.py:241-423 | With no card only the request is issued. Otherwise a clone is reported or the genuine path is taken. The keypad restarts unless a stage broke out, which leaves the loop with RED and the keypad stopped. |
| Controller.Station.DoWork | ESP32/main.py:231-489 | No pass before the last broke out. Leaving before the cycle bound means the last pass broke out, with RED and the keypad stopped. Every pass classifies the card in the field as CardPass does: no card, a cloned card, no checked UID or not selectable. |
| PhpValues.DigitValue | PHP/rfid-auth/GoogleAuthenticator.php:251 | A digit character denotes a value below 10. |
| PhpValues.DigitChar | PHP/rfid-auth/GoogleAuthenticator.php:251 | A digit's character reads back as the digit. |
| PhpValues.DigitsValueBound | PHP/rfid-auth/GoogleAuthenticator.php:251 | k digits denote a number below 10^k. |
| PhpValues.DigitsValueInjective | PHP/rfid-auth/GoogleAuthenticator.php:225 | Digit strings of one length with one value are equal. |
| PhpValues.Decimal | PHP/rfid-auth/GoogleAuthenticator.php:251 | PHP's rendering of a number is a digit string denoting it, with no leading zero. |
| PhpValues.DecimalLength | PHP/rfid-auth/GoogleAuthenticator.php:251 | A number below 10^k renders in at most k digits. |
| PhpValues.IntText | PHP/rfid-auth/auth.php:50-57 | An integer concatenated into a string renders as at least one character. |
| PhpValues.Substr | PHP/rfid-auth/auth.php:214-216 | `substr` is the in-range slice, or "" past the end. |
| PhpValues.PadLeft | PHP/rfid-auth/GoogleAuthenticator.php:251 | `str_pad` gives length `max(len, \|s\|)`, ends with s, and is padded with the pad character. |
| PhpValues.FindExponent | PHP/rfid-auth/auth.php:59 | Finds the first exponent marker of a numeric string, or shows there is none. |
| PhpValues.NumericValue | PHP/rfid-auth/auth.php:59 | A non-empty digit string is numeric with its value. "" is not numeric. |
| PhpValues.LooseEqReflexive | PHP/rfid-auth/auth.php:59 | Loose `==` never separates equal strings. |
| PhpValues.LooseEqOnDigits | PHP/rfid-auth/GoogleAuthenticator.php:225 | On digit strings of one length, loose `==` is plain equality. |
| PhpValues.CastText | PHP/rfid-auth/auth.php:84 | A posted string is itself where a string is wanted. A boolean becomes at most one character, non-empty exactly when it is true. |
| PhpValues.LooseEqPostedWord | PHP/rfid-auth/auth.php:168-196 | Against a non-numeric word such as "open" or "", a posted string is loosely equal only when it is that word. `true` equals every word but "" and "0". |
| GAuth.Alphabet | PHP/rfid-auth/GoogleAuthenticator.php:72 | The key list has 32 entries: 'A'..'Z', then '2'..'7'. |
| GAuth.Combine | PHP/rfid-auth/GoogleAuthenticator.php:71-74 | `array_combine` has exactly the listed keys. |
| GAuth.CombineAt | PHP/rfid-auth/GoogleAuthenticator.php:71-74 | With distinct keys, each key maps to the value at its position. |
| GAuth.LookupIsRfc4648 | PHP/rfid-auth/GoogleAuthenticator.php:69-76 | The table maps 'A'..'Z' to 0..25 and '2'..'7' to 26..31, the alphabet of section 6 of RFC 4648, and nothing else. |
| GAuth.Digit | PHP/rfid-auth/GoogleAuthenticator.php:352 | A character contributes a 5-bit value. |
| GAuth.Base32Decoded | PHP/rfid-auth/GoogleAuthenticator.php:346-361 | n characters decode to floor(5n/8) bytes. |
| GAuth.DecodeStep | PHP/rfid-auth/GoogleAuthenticator.php:350-358 | One more character keeps the bytes so far and adds one when eight bits are pending. That byte is bits 8k..8k+7 of the concatenated values. |
| GAuth.LowBits | PHP/rfid-auth/GoogleAuthenticator.php:350-359 | The emitted byte does not depend on the bits the 64-bit buffer loses. |
| GAuth.TextBytes | PHP/rfid-auth/GoogleAuthenticator.php:247 | A single-byte text is one byte per character. |
| GAuth.AcceptedIsAscii | PHP/rfid-auth/GoogleAuthenticator.php:341 | Text the alphabet check accepts is ASCII. |
| GAuth.Pack32 | PHP/rfid-auth/GoogleAuthenticator.php:246 | `pack('N', t)` is four bytes. |
| GAuth.Counter | PHP/rfid-auth/GoogleAuthenticator.php:246 | The HMAC message is 8 bytes with a zero high word. |
| GAuth.CounterRoundTrip | PHP/rfid-auth/GoogleAuthenticator.php:246 | The low word reads back as t mod 2^32. |
| GAuth.TruncateHash | PHP/rfid-auth/GoogleAuthenticator.php:318-328 | The truncated value is below 10^codeLength. |
| GAuth.TruncateIsRfc4226 | PHP/rfid-auth/GoogleAuthenticator.php:318-328 | `truncateHash` is the dynamic truncation of section 5.3 of RFC 4226: the offset from the low nibble of byte 19, the 31 low bits of the big-endian word there, mod 10^digits. |
| GAuth.LeadingZeros | PHP/rfid-auth/GoogleAuthenticator.php:251 | Leading zeros do not change a code's value. |
| GAuth.PaddedCode | PHP/rfid-auth/GoogleAuthenticator.php:251 | The padded code has exactly `codeLength` digits and reads back as the number. |
| GAuth.DecodeChar | PHP/rfid-auth/GoogleAuthenticator.php:350-359 | One pass of the loop keeps buffer, length and output equal to their values on the characters so far. |
| GAuth.DecodeAccepted | PHP/rfid-auth/GoogleAuthenticator.php:344-361 | The loop's output is `Base32Decoded` of the input. |
| GAuth.Auth.constructor | PHP/rfid-auth/GoogleAuthenticator.php:29-62 | No key, 30-second steps, 6 digits and a window of 2. |
| GAuth.Auth.BuildLookup | PHP/rfid-auth/GoogleAuthenticator.php:69-76 | The lookup is the alphabet table. The other fields are unchanged. |
| GAuth.Auth.SetInitKey | PHP/rfid-auth/GoogleAuthenticator.php:109-116 | An accepted key is stored. Anything else ("" and lower case included) raises "Invalid base32 hash!" and keeps the old key. |
| GAuth.Auth.SetRange | PHP/rfid-auth/GoogleAuthenticator.php:93-100 | A numeric value replaces the window. Anything else raises "Invalid window range" and keeps it. |
| GAuth.Auth.SetRefresh | PHP/rfid-auth/GoogleAuthenticator.php:171-178 | A numeric value replaces the step length. Anything else raises "Seconds must be numeric" and keeps it. |
| GAuth.Auth.SetCodeLength | PHP/rfid-auth/GoogleAuthenticator.php:196-200 | Stores the length unchecked. The other fields are unchanged. |
| GAuth.Auth.Base32Decode | PHP/rfid-auth/GoogleAuthenticator.php:337-362 | Raises for null, "", or any character outside the alphabet (checked before upper-casing). Otherwise returns `Base32Decoded`. |
| GAuth.Auth.SearchWindow | PHP/rfid-auth/GoogleAuthenticator.php:224-229 | True exactly when some step of `[t-r, t+r]` gives a code loosely equal to the input. |
| GAuth.Auth.ValidateCode | PHP/rfid-auth/GoogleAuthenticator.php:212-230 | A wrong length raises "Incorrect code length". A zero range, timestamp or key falls back to the default. A bad key raises. Otherwise the answer is whether the window holds the code. |
| GAuth.InitKeyBytes | PHP/rfid-auth/GoogleAuthenticator.php:239-247 | The object's key as HMAC key bytes: empty for null, one byte per character otherwise. |
| GAuth.OneTime | PHP/rfid-auth/GoogleAuthenticator.php:239-252 | A code is digits below 10^digits, exactly `digits` long. |
| GAuth.OneTimeIsHotp | PHP/rfid-auth/GoogleAuthenticator.php:239-252 | The code's value is the RFC 4226 HOTP value of the HMAC of the 8-byte counter, written in `digits` digits. |
| GAuth.MatchInExtend | PHP/rfid-auth/GoogleAuthenticator.php:224-228 | Widening the searched steps by one adds exactly that step's code. |
| GAuth.KeyArgument | PHP/rfid-auth/GoogleAuthenticator.php:220 | A null or empty key argument falls back to the object's key. |
| GAuth.WindowAcceptsItsCodes | PHP/rfid-auth/GoogleAuthenticator.php:224-228 | Every step of the window accepts its own code. |
| GAuth.DigitCodeMatchesExactly | PHP/rfid-auth/GoogleAuthenticator.php:225 | For a digit code of the configured length, the loose match is exact equality with some step's code. |
| AuthServer.Text | PHP/rfid-auth/auth.php:28-44 | A missing field is "" and a present one is its text. |
| AuthServer.Field | PHP/rfid-auth/auth.php:36-41 | A missing key or door command compares like "". A present one is the posted string or boolean. |
| AuthServer.FilledCases | PHP/rfid-auth/auth.php:135 | `$key != ""` holds exactly for a non-empty string or `true`. |
| AuthServer.Get | PHP/rfid-auth/auth.php:71 | A missing field reads as null. |
| AuthServer.RandIn | PHP/rfid-auth/auth.php:308-309 | `rand(lo, hi)` lies in lo..hi. |
| AuthServer.RandAt | PHP/rfid-auth/auth.php:308-309 | The k-th call lies in lo..hi. |
| AuthServer.AntitamperText | PHP/rfid-auth/auth.php:50-53 | The tag text is 16 characters from offset 8 of the HMAC of name and number. |
| AuthServer.KeysText | PHP/rfid-auth/auth.php:54-57 | A key is 12 characters from offset 8 of the HMAC. |
| AuthServer.MagicHashAccepted | PHP/rfid-auth/auth.php:58-64 | When the expected text is "0e" followed by digits, the check as written accepts "0" and the intended check refuses it. Stages 2, 3 and 4 guard on the check as written. |
| AuthServer.StrictCheckRefinesLoose | PHP/rfid-auth/auth.php:58-64 | The intended check accepts only what the check as written accepts. It accepts only a posted 16-character string, never a boolean. |
| AuthServer.BoolKeyRoutesToStage3 | PHP/rfid-auth/auth.php:168 | A stage-3 request with key `true`, doorcmd "open" and a non-empty UID takes the stage-3 branch. |
| AuthServer.BoolKeyPassesCheck | PHP/rfid-auth/auth.php:58-64 | For every record, a posted `true` passes the check as written, because a 16-character text reads as true. The intended check refuses it. |
| AuthServer.Route | PHP/rfid-auth/auth.php:28-208 | Rejected exactly without cmd, without device_id, or without uid (keyauth exempt). Each stage branch is taken only when its fields pass `!= ""`, which a posted `true` does. |
| AuthServer.InArray | PHP/rfid-auth/auth.php:119 | `in_array` holds exactly when some entry is loosely equal. |
| AuthServer.DeviceAllowed | PHP/rfid-auth/auth.php:119 | Allowed exactly without a device list, or with "all" or the device in it. A non-array list raises. |
| AuthServer.Stage1Route | PHP/rfid-auth/auth.php:113-132 | Unknown UID means log. A reset flag means reset. A read key on an allowed device means "k". A name without a read key means init. |
| AuthServer.RotateFreshFields | PHP/rfid-auth/auth.php:137-145 | A match on the current number puts a fresh number in `num_temp` and keeps `num`, the name and the count. No other field changes. |
| AuthServer.RotateRaceFields | PHP/rfid-auth/auth.php:147-158 | A match on the pending number promotes it to `num` and puts a fresh one in `num_temp`. No other field changes. |
| AuthServer.Increment | PHP/rfid-auth/auth.php:173 | `+= 1` counts null as 0 and adds one to an integer or to a numeric string's value. An array or a string `NumericValue` refuses raises. |
| AuthServer.CommitFields | PHP/rfid-auth/auth.php:170-174 | The commit fails exactly when the count cannot be incremented. Otherwise `num := num_temp`, the use is dated and counted, and no other field changes. |
| AuthServer.CodeDigits | PHP/rfid-auth/auth.php:176-194 | 10 digits with secret and PIN, 6 with the secret only, 4 with `nfc_pin` only, none otherwise. |
| AuthServer.SaveFactors | PHP/rfid-auth/auth.php:274-284 | The saved part is exactly the second-factor fields present. |
| AuthServer.Rebuild | PHP/rfid-auth/auth.php:286-300 | The rebuilt record is the saved fields plus the name. |
| AuthServer.ResetRecordFields | PHP/rfid-auth/auth.php:269-304 | After resetfob the record holds exactly the name and the second factors present before, with their values. |
| AuthServer.ResetLeadsToInit | PHP/rfid-auth/auth.php:115-125 | A reset record is initialised on its next stage 1, on any device. |
| AuthServer.BlockFor | PHP/rfid-auth/auth.php:305-312 | The block lies in 4..63, is never a trailer, and lies in sectors 1..15. |
| AuthServer.DrawRun | PHP/rfid-auth/auth.php:326 | n calls give n numbers. |
| AuthServer.KeyTexts | PHP/rfid-auth/auth.php:345-352 | One key per number. |
| AuthServer.KeyTextsShape | PHP/rfid-auth/auth.php:345-352 | Every key is 12 characters. |
| AuthServer.NewKeys | PHP/rfid-auth/auth.php:345-352 | Each list gains sixteen keys. |
| AuthServer.NewKeysShape | PHP/rfid-auth/auth.php:345-352 | Every new key is 12 characters, a 6-byte MIFARE key in hex. |
| AuthServer.CharRun | PHP/rfid-auth/auth.php:324-327 | A filler entry has n characters. |
| AuthServer.HexDigitIsCharset | PHP/rfid-auth/auth.php:317 | The k-th character of the charset is the hex digit k. |
| AuthServer.CharRunHex | PHP/rfid-auth/auth.php:324-327 | Filler characters are hex digits. |
| AuthServer.EntryRun | PHP/rfid-auth/auth.php:322-329 | n entries. |
| AuthServer.EntryRunHex | PHP/rfid-auth/auth.php:322-329 | Each entry is 16 hex characters. |
| AuthServer.EntryRunSplit | PHP/rfid-auth/auth.php:320-330 | Drawing m + k entries is drawing m, then k. |
| AuthServer.EntryRunAppend | PHP/rfid-auth/auth.php:328 | Appending the next entries extends the run. |
| AuthServer.Filler | PHP/rfid-auth/auth.php:316-332 | The filler has 60 entries (15 sectors of 4 blocks). |
| AuthServer.FillerIsHex | PHP/rfid-auth/auth.php:316-332 | Every filler entry is 16 hex characters. |
| AuthServer.KeyList | PHP/rfid-auth/auth.php:345-352 | An absent list starts empty, an array extends, and a scalar raises. |
| AuthServer.InitRecordFields | PHP/rfid-auth/auth.php:341-358 | initfob stores the block, the counters, both lists, the read and write keys at index `block div 4`, and the first number. No other field changes. |
| AuthServer.InitLeadsToReadKey | PHP/rfid-auth/auth.php:113-132 | An initialised record without a device list is sent its read key on the next stage 1. |
| AuthServer.Stage4Code | PHP/rfid-auth/auth.php:214-223 | With a PIN, the validated code is the gcode without its first 4 characters. Without one, it is the whole gcode. |
| AuthServer.WholeCodeAlwaysRaises | PHP/rfid-auth/auth.php:224-227 | `new Auth(secret)` and `validateCode` raise for a code of any length but 6, whatever the stored secret. So they raise for the 10 characters of PIN and code. |
| AuthServer.StrippedCodeReachesWindow | PHP/rfid-auth/auth.php:214-227 | With the PIN stripped and a valid secret, the six remaining digits reach the window check. |
| AuthServer.VisitRoundTrip | PHP/rfid-auth/auth.php:135-174 | Stage 2 issues a text that stage 3 accepts. After the commit, stage 4 and the next stage 2 accept the same text. This holds for the check as written and for the exact one. |
| AuthServer.RaceRecovery | PHP/rfid-auth/auth.php:147-158 | A visit interrupted after the write is recovered: the next stage 2 matches the pending number and makes it current. This holds for both checks. |
| AuthServer.Server.constructor | PHP/rfid-auth/auth.php:46-48 | The database and parameters as given. Nothing drawn or logged. |
| AuthServer.Server.Rand | PHP/rfid-auth/auth.php:308 | One draw, brought into range. |
| AuthServer.Server.Handle | PHP/rfid-auth/auth.php:22-267 | A rejected request prints the refusal, and an unrouted one prints nothing. Every other branch leaves what its own method states: the clone alarm, `KeyAuthDone` on the key cast to a string, `Stage1Done`, `Stage2Done`, `Stage3Done` and `Stage4Done` (together `HandleDone`). Each branch leaves the logs, hooks and draws it does not touch as they were. Only stages 1-3 may change the database, only stage 1 writes unknown_uids.txt, only stage 2 writes the race log, and only stages 1 and 2 draw. |
| AuthServer.Server.ChinaUid | PHP/rfid-auth/auth.php:69-78 | Raises the clone alarm with the owner's name (or "unknown") and answers "err". |
| AuthServer.Server.Validate | PHP/rfid-auth/auth.php:225-227 | `new Auth(secret)->validateCode(code)`: a bad secret raises, otherwise window validation. |
| AuthServer.Server.KeyAuth | PHP/rfid-auth/auth.php:81-108 | A length other than 10 gets "sorry". An unknown PIN gets "err". A validated code toggles the door and answers "kk". A raised validation is an uncaught error that leaves the door hooks untouched. |
| AuthServer.Server.Stage1 | PHP/rfid-auth/auth.php:113-132 | Each route's reply and database effect. An unknown UID is logged, raises the alarm and gets "err". A reset record is rebuilt and answered with its old key lists. An allowed device gets the read order. A refused device gets its message. A broken device list is an uncaught error. A named record is populated. Anything else prints nothing. Only reset and init change the database. Every route but the unknown UID leaves unknown_uids.txt and the hooks alone, and every route but init draws nothing. |
| AuthServer.Server.Stage2 | PHP/rfid-auth/auth.php:135-165 | Compares the posted string or boolean with loose `==` (`CheckAntitamperLoose`). A match on `num` rotates fresh. A match on `num_temp` promotes and logs the race. Anything else answers "err" with no change. |
| AuthServer.Server.Rotate | PHP/rfid-auth/auth.php:138-158 | Draws a number, writes the rotated record, and orders the new text written. |
| AuthServer.Server.Stage3 | PHP/rfid-auth/auth.php:168-205 | Compares the posted string or boolean with loose `==`. Without a match on `num_temp`: "err" and no change. Otherwise the visit is committed. |
| AuthServer.Server.CommitVisit | PHP/rfid-auth/auth.php:170-199 | Commits. "open" asks for 10/6/4 digits or opens. "close" closes. The command is compared with loose `==`, so a posted `true` is "open". |
| AuthServer.Server.BoolKeyOpensStage3 | PHP/rfid-auth/auth.php:168-192 | A stage-3 request for any known UID with key `true` and doorcmd "open" reaches stage 3. It commits the visit and, for a fob without a second factor, opens the door. The statement is made over Handle's contract (`HandleDone`). |
| AuthServer.Server.BoolKeyCommitsAndOpens | PHP/rfid-auth/auth.php:168-192 | Inside stage 3, key `true` and doorcmd "open" commit the visit and fire `door_open`. |
| AuthServer.Server.DoorAction | PHP/rfid-auth/auth.php:230-238 | "open" (or `true`) and "close" fire their hook and answer "done". Anything else gets no answer. |
| AuthServer.Server.Stage4 | PHP/rfid-auth/auth.php:208-266 | The current text must match the posted string or boolean under loose `==`. Then the second factor decides. The database is untouched. |
| AuthServer.Server.SecondFactor | PHP/rfid-auth/auth.php:213-260 | A wrong PIN gets "err". With a TOTP secret, the whole gcode is validated, PIN included. A PIN alone passes on a match. With no second factor there is no answer. |
| AuthServer.Server.PinnedSecondFactorNeverOpens | PHP/rfid-auth/auth.php:213-227 | With both a TOTP secret and a PIN, and a gcode of any length but 6, stage 4 records no door event. The reply is "err" or an uncaught error. |
| AuthServer.Server.Totp | PHP/rfid-auth/auth.php:224-241 | A raised validation is an uncaught error. A failure gets "err". A pass carries out the door command. |
| AuthServer.Server.ResetFob | PHP/rfid-auth/auth.php:269-304 | Answers with the old key lists and leaves the record `ResetRecord`. |
| AuthServer.Server.GetRandBlockToWrite | PHP/rfid-auth/auth.php:305-312 | Two draws give `BlockFor`. |
| AuthServer.Server.RandEntry | PHP/rfid-auth/auth.php:324-327 | 16 draws give one entry. |
| AuthServer.Server.RandSector | PHP/rfid-auth/auth.php:322-329 | 64 draws give four entries. |
| AuthServer.Server.GetRandFiller | PHP/rfid-auth/auth.php:316-332 | 960 draws give `Filler`. |
| AuthServer.Server.DrawNumbers | PHP/rfid-auth/auth.php:345-352 | count draws, in order. |
| AuthServer.Server.AppendKeys | PHP/rfid-auth/auth.php:345-352 | The list gains `NewKeys`. |
| AuthServer.Server.InitFob | PHP/rfid-auth/auth.php:335-374 | An unknown uid, a missing name or a populated record each get their error and no change. Otherwise the record is populated. |
| AuthServer.Server.Populate | PHP/rfid-auth/auth.php:341-363 | The block, 32 key draws, the number and the filler, in draw order. A scalar key list raises. |
| AuthServer.Server.Install | PHP/rfid-auth/auth.php:353-363 | Writes `InitRecord` and replies with the block, write key, text, lists and filler. |

## Left out

- SPI, GPIO and board detection in `MFRC522.__init__`. The chip is a register file, and its power-on values are a parameter.
- The card and the radio link: a card is a function from the frames sent so far to its reply (IRQ schedule, error flags, data, RxLastBits).
- Mfrc522.MFRC522.Crc: the `_crc` wait loop is modelled as seeing CRCIRq at once. Its 255-read timeout (the chip not finishing) is not modelled.
- The keypad timer's interrupt concurrency. `start`/`stop` are a flag and `timer_callback` is one sequential step. Interleaving with the main loop is not modelled.
- KeypadTimer.Keypad: the label table is a `chars` field the constructor sets to the labels. `Pressed` is stated for any table, and the lemmas that need distinct labels require it.
- HTTP, JSON, sleeps, `machine.idle`, debug logging and NeoPixel output. Replies are a given sequence, with None for a request or decoding that raised. Pixel writes and watchdog feeds are recorded.
- Controller.StatusLight.Led: the order of the pixel writes within one frame is not modelled. Only the frames pushed are.
- Controller.Station.DoWork: the endless `while True` loop is bounded by a cycle count, and `KeyboardInterrupt` is not modelled.
- Controller.Station.GetStage4Code: an exception inside the entry loop (the `except` at main.py:225) cannot happen in the model, because `get_key` never raises.
- Controller.Reader: the controller sees the reader through an abstract card (present, cloned, UID, selectable, accepted keys, read answers) rather than through `Mfrc522.MFRC522`. The byte-level driver is proved separately.
- Controller.Provision: the key lists arrive hex-decoded, and a reply that has the init or reset status carries every field. A key that is not valid hex (where `unhexlify` raises), a non-integer `setantiblk`, and a `txt`, `filler` or `keya` field missing from an otherwise complete reply are not modelled. A reply without the fields counts as one that raises before any card call. A null list is modelled as an empty one, since both raise at the first index.
- `hash_hmac` (SHA-256 and SHA-1) is an uninterpreted parameter. `getrandmax()` is a fixed symbolic bound.
- `rand()` is a stream of raw draws. `date()` is a parameter, and the door and alarm hooks of configuration.php are recorded events.
- File reads and writes of the JSON databases and logs. The databases are maps, and the logs are sequences.
- The `$_GET["QR"]` branch, `generateTimestamp` (floating-point `microtime`), `generateCode` and `generateQrImage`. The current time step is a parameter.
- AuthServer.Server.AppendKeys: PHP interleaves each `rand()` with the HMAC of its number. The model draws the sixteen numbers first. The result is the same, since the HMAC draws nothing.
- AuthServer.Request: a posted `key` or `doorcmd` is a string or a boolean. `uid`, `cmd`, `device_id` and `gcode` are strings only, and no field may be a JSON number, array or object. So these are not modelled: a boolean `cmd` (true loosely equals "chinauid" and takes the first branch whose other guards hold), a boolean `gcode` (read as "1" or ""), a numeric `key` (compared as a number with the 16-character text, so "0e…" texts equal 0), and the TypeErrors PHP raises for arrays.
- GAuth.Auth.SetCodeLength: requires a length of at most 18. Beyond that PHP's `pow(10, n)` is a float, and floating point is not modelled.
- PhpValues.NumericValue: only digit strings, and digits, `e` or `E`, digits, count as numeric. PHP 8 also accepts a sign, a decimal fraction, a signed exponent, and leading and trailing whitespace, and compares such strings as floats. So `LooseEq` and `LooseEqValue` call `"0e5" == "-0"`, `"0e5" == " 0"` and `"0e5" == "0.0"` false where PHP calls them true. Floating point is not modelled.
- PhpValues.Value: a stored database value is null, an integer, a string or a list of strings. JSON booleans, floats and objects, and lists holding numbers, booleans, null or nested lists, are not modelled. For example, `"device_ids": [7]` is matched by the device id "7" through `in_array` (auth.php:119), a float `anti_tamper_num` is concatenated in its float rendering, and a boolean `used_cnt` counts as 0 or 1.
- AuthServer.Increment: a stored string counts only when `NumericValue` accepts it, and anything else is an uncaught error. PHP 8 also increments a string with surrounding whitespace (" 12" gives 13), a leading-numeric string ("12abc" gives 13, with a warning), and a fractional string (to a float).
- AuthServer.InArray: inherits the narrower `NumericValue`, so a device list entry such as `"7.0"` is not matched by the device id `"7"`, where PHP matches it.
- GAuth.Auth.SetRange: `is_numeric` is modelled by `NumericValue`, so a fractional, space-padded or signed-text window is refused where PHP accepts it (and stores the text as given).
- GAuth.Auth.SetRefresh: the same narrowing for the step length.
- Exceptions are modelled as values: `raised` flags in the driver, `Outcome.Raised` in the helper, `Crash` replies on the server, and `Broken` trips on the reader.

## Findings

| source | as written | input that shows it | evidently intended | confidence | as-written member | corrected member |
|---|---|---|---|---|---|---|
| PHP/rfid-auth/auth.php:58-64 | `check_antitamper_txt` compares the expected and presented texts with loose `==`, which compares numeric strings by value | a record whose expected text is "0e" followed by 14 digits, with the tag presenting "0": both sides read as the number 0 | exact string comparison (`===`) | medium, not executed | AuthServer.MagicHashAccepted | AuthServer.StrictCheckRefinesLoose |
| PHP/rfid-auth/auth.php:36-64 | the posted `key` comes from `json_decode` and may be a boolean, and `check_antitamper_txt` compares it with loose `==` | `{"cmd":"stage3","device_id":"x","uid":<any known UID>,"key":true,"doorcmd":"open"}`: `true != ""` holds, and the 16-character text `== true` holds, so stage 3 commits and opens the door for any fob without a second factor | exact comparison with a string (`===`), which refuses a boolean | high, not executed | AuthServer.Server.BoolKeyOpensStage3 | AuthServer.StrictCheckRefinesLoose |
| PHP/rfid-auth/auth.php:227 | stage 4 passes the whole `$gcode`, PIN included, to `validateCode` | a fob with `gauth_secret` and `gauth_pin` and a 10-character gcode: `validateCode` raises "Incorrect code length" (10 is not 6) whatever the secret | `validateCode($googlecode)`, the code without the PIN (line 216) | high, not executed | AuthServer.Server.PinnedSecondFactorNeverOpens | AuthServer.StrippedCodeReachesWindow |
