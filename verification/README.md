# SSD1306 displayio driver, modelled in Dafny

A model of the CircuitPython `adafruit_displayio_ssd1306` driver for SSD1306
monochrome OLED panels. The driver does two things of its own:

* **Init-sequence patching.** The driver keeps a fixed 34-byte command table,
  `_INIT_SEQUENCE`. It is thirteen records of the form `[opcode, payload length,
  payload...]`, from display off (`0xAE`) to display on (`0xAF`). On
  construction the driver copies it into a `bytearray` and overwrites two
  payload bytes:
  * byte 16 is the payload of the mux-ratio record `0xA8`. It becomes the
    effective height minus one. The effective height is the width when a
    rotation is given and is not a multiple of 180; otherwise it is the height.
  * byte 25 is the payload of the COM-configuration record `0xDA`. It becomes
    `0x02` when the height argument, before rotation, is 32.

  In standard Python, writing a value outside 0..255 into a `bytearray` raises
  `ValueError`, so a geometry whose effective height is outside 1..256 makes
  construction fail; the model follows that behaviour. The patched buffer
  is handed to the display framework.
* **Power toggle.** `sleep()` sends display off (`0xAE`, empty payload) only when
  the display is awake. `wake()` sends display on (`0xAF`) only when it is
  asleep. `is_awake` reads the flag, which starts out true.

Files:

* `wrappers.dfy`: `Option` and `Result`.
* `records.dfy` (module `CommandRecords`): the record format of a command table.
  `Encode` and `Decode` are inverses. `Locate` maps a byte offset to (record,
  payload byte). Lemmas show that overwriting payload bytes keeps every
  record's opcode, length and position.
* `init_sequence.dfy` (module `InitSequence`): the template and the pure
  specification `Patched` of the patched table. `BuildInitSequence` copies the
  template into a fresh array and patches it in place. Lemmas give the
  template's record layout and show the patch keeps it.
* `driver.dfy` (module `Ssd1306`): the power state machine as values (`Step`,
  `Run`) with its invariant, and the class `Display`. `Display` holds the buffer
  handed to the framework, the `isAwake` flag and `sent`, the list of commands
  passed to the bus. `Create` builds the buffer and constructs the driver, or
  returns the error.

This version of the driver has no panel-specific overrides: no 64x32 mux-ratio
override, no column/row centring for narrow panels, no IREF command. The model
has none either.

## Model

| member | source | states |
|---|---|---|
| `InitSequence.Patched` | adafruit_displayio_ssd1306.py:65-73 | Fails with `MuxRatioOutOfRange(h - 1)` exactly when the effective height h is outside 1..256. Otherwise the result is 34 bytes long. Byte 16 is h - 1, where h is the width if a rotation is given with `rotation % 180 != 0` and the height otherwise. Byte 25 is `0x02` exactly when the unrotated height is 32, and otherwise keeps the template's `0x12`. Every other byte equals the template's. |
| `InitSequence.BuildInitSequence` | adafruit_displayio_ssd1306.py:67-73 | Copies the template into a fresh array and patches it in place. The array's contents equal `Patched`, and the error case returns `Patched`'s error. |
| `InitSequence.TemplateLayout` | adafruit_displayio_ssd1306.py:37-52 | The template decodes to thirteen well-formed records with opcodes AE 20 81 A1 A6 C8 A8 D5 D9 DA DB 8D AF in that order. Byte 16 is the payload byte of the A8 (mux ratio) record and byte 25 that of the DA (COM configuration) record. |
| `InitSequence.PatchedLayout` | adafruit_displayio_ssd1306.py:67-73 | Every successfully patched table decodes to the template's thirteen records in the same order, with the same opcodes and payload lengths. The A8 payload holds byte 16, the DA payload holds byte 25, and every other record equals the template's. |
| `InitSequence.WritesKeepLayout` | adafruit_displayio_ssd1306.py:71-73 | Any two values written at offsets 16 and 25 leave the template's record structure intact. Only the A8 and DA payloads change. |
| `CommandRecords.Decode` | adafruit_displayio_ssd1306.py:38-52 | A decoded table is well formed: every payload fits its one-byte length. |
| `CommandRecords.DecodeEncode` | adafruit_displayio_ssd1306.py:38-52 | Decoding the encoding of well-formed records gives those records back. |
| `CommandRecords.EncodeDecode` | adafruit_displayio_ssd1306.py:38-52 | Encoding what a byte string decodes to gives that byte string back. |
| `CommandRecords.Locate` | adafruit_displayio_ssd1306.py:38-52 | A located offset names an existing record and a byte inside its payload. |
| `CommandRecords.LocateByLayout` | adafruit_displayio_ssd1306.py:38-52 | Payload byte j of record r lies at the record's start offset plus 2 + j. |
| `CommandRecords.EncodeByLayout` | adafruit_displayio_ssd1306.py:38-52 | A byte string holding each record at its start offset, and nothing else, is the encoding of those records. |
| `CommandRecords.LayoutIncreasing` | adafruit_displayio_ssd1306.py:38-52 | Records are laid out in order: a later record starts after an earlier one ends. |
| `CommandRecords.PatchPayloadByte` | adafruit_displayio_ssd1306.py:71-73 | Overwriting one payload byte of a decodable table gives a table that decodes to the same records. Only that payload byte is replaced. |
| `CommandRecords.PatchAtLayout` | adafruit_displayio_ssd1306.py:71-73 | The same, for a payload byte found through the record start offsets; the offsets stay valid. |
| `CommandRecords.PatchTwoPayloads` | adafruit_displayio_ssd1306.py:71-73 | Overwriting the payload bytes of two one-byte-payload records keeps the layout. Only those two payloads change. |
| `CommandRecords.SetPayloadByte` | adafruit_displayio_ssd1306.py:71-73 | Replacing one payload byte keeps every record's opcode and payload length. Only that byte changes. |
| `Ssd1306.StepSendsAtMostOne` | adafruit_displayio_ssd1306.py:100-117 | After `sleep()` the display is asleep and after `wake()` it is awake. A call that changes the state appends exactly one command: `0xAE` for sleep, `0xAF` for wake, each with an empty payload. A call that does not change the state changes nothing. |
| `Ssd1306.StepIdempotent` | adafruit_displayio_ssd1306.py:100-117 | Calling `sleep()` (or `wake()`) twice has the same effect as calling it once. |
| `Ssd1306.StepKeepsConsistent` | adafruit_displayio_ssd1306.py:100-117 | One sleep or wake keeps the invariant. The invariant: sent commands alternate AE, AF, ... starting with AE, and the display is awake iff nothing was sent or the last command was AF. |
| `Ssd1306.RunKeepsConsistent` | adafruit_displayio_ssd1306.py:100-117 | Any sequence of sleep and wake calls keeps that invariant. |
| `Ssd1306.RunFromInitial` | adafruit_displayio_ssd1306.py:87-117 | From construction, after any sequence of calls, the sent opcodes alternate AE, AF, AE, ... starting with AE. The display is awake iff the log is empty or ends with AF. |
| `Ssd1306.Display.constructor` | adafruit_displayio_ssd1306.py:74-87 | Keeps the buffer it is given. The display starts awake, with no sleep or wake command sent. |
| `Ssd1306.Display.IsAwake` | adafruit_displayio_ssd1306.py:89-98 | Reads the power flag without changing state. It is true exactly when no command was sent or the last one was display on. |
| `Ssd1306.Display.Sleep` | adafruit_displayio_ssd1306.py:100-109 | The new state is one sleep step from the old one: when awake, it sends `0xAE` with an empty payload and becomes asleep; otherwise nothing changes. Keeps the invariant. |
| `Ssd1306.Display.Wake` | adafruit_displayio_ssd1306.py:111-117 | The new state is one wake step from the old one: when asleep, it sends `0xAF` with an empty payload and becomes awake; otherwise nothing changes. Keeps the invariant. |
| `Ssd1306.Create` | adafruit_displayio_ssd1306.py:65-87 | Fails with `Patched`'s error when the mux-ratio write does not fit a byte. Otherwise it returns a new driver whose buffer holds exactly `Patched`'s bytes. That driver is awake and has sent no sleep or wake command. |

## Left out

- The `displayio.Display` superclass constructor and its constant keyword arguments (colour depth, column/row commands, brightness command and the rest, lines 74-86) belong to the display framework, whose code is not part of this model. The model only records that the patched buffer is the one handed over.
- The bus transport (`self.bus.send`, lines 108 and 116) is not modelled as I/O. Each send is an entry appended to the `sent` list. Transport failures are not modelled.
- Rotation values are not validated. The docstring asks for 0, 90, 180 or 270, but the code never checks, so the model accepts any integer. Python's `%` floors, but only whether `rotation % 180` is zero matters, and that agrees with Dafny's `%`.
- A missing `height`, or a missing `width` when rotated, raises `KeyError` in the source. The model takes both as required integer parameters. Non-integer arguments are not modelled.
- `CommandRecords.Decode` reads the length byte as a plain count. The display framework also gives the high bit of that byte a meaning (a delay after the command). That bit is clear in every record of this table, so the model does not treat it.
- `examples/displayio_ssd1306_simpletest.py` only sets up hardware and draws through other libraries; it has no logic of this driver to model.
- InitSequence.Patched, InitSequence.BuildInitSequence and Ssd1306.Create model an out-of-range mux-ratio write (effective height outside 1..256) as the `ValueError` standard Python's `bytearray` raises. A runtime whose `bytearray` store keeps only the low 8 bits would instead write `(height - 1) mod 256` and construct the driver; that 8-bit wrap is not modelled.
