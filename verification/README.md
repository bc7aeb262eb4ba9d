# uhkctl configuration decoder in Dafny

This project models the configuration-reading core of `uhkctl`, a command-line
tool for the Ultimate Hacking Keyboard. The tool asks the keyboard for the
sizes of its configuration buffers over USB HID. It fetches a buffer in 63-byte
chunks, then decodes the buffer into a tree:

- a hardware configuration;
- or a user configuration, followed by module pointer settings, macros and
  keymaps. Each keymap holds layers, each layer holds modules, and each module
  holds key actions.

Modules, one per concern:

- `Bytes` — the `u8`/`u16`/`u32` ranges, little-endian assembly and the bit test `flags & mask != 0`.
- `Utf8` — well-formed UTF-8 as RFC 3629, section 4, defines it. This is what `String::from_utf8` accepts. A string is represented by its bytes.
- `Consts` — the protocol tables: USB command opcodes, buffer, property and variable ids, module slots, key and macro action tags, keystroke flags and kinds, and the 64-byte report size.
- `Cursor` — the `UhkCursor` reader, as a class over the buffer with a moving position. Each read is specified by a function `XAt(d, p)`: the value decoded from buffer `d` at position `p`, and the position after it.
- `Counted` — count-prefixed sequences, `(0..n).map(..).try_collect()`. The items are read in order, and the first failure ends the sequence.
- `Config` — the `deserialize` functions of the configuration tree, and the key action decoder. In that decoder the tag byte doubles as a flag byte.
- `Buffers` — the decode sequence of the program's main function: the hardware buffer, then the user buffer with its three inline sections.
- `Device` — the HID exchange, the pure decoding of response frames, and the chunk loop of `load_config`.

Behaviour kept as the code has it:

- **Config sizes.** `get_config_size` computes each size as `(b1 + b2) << 8`, not as a little-endian `b1 | b2 << 8`. `load_config` then narrows the size to `u16`, so a sum of 256 or more wraps. `Device.ConfigSizes` and `Device.SelectSize` compute the sizes exactly this way.
- **Key action tag 31.** The tag comments in `consts.rs` reserve tags 1 to 31 for keystrokes. The decoder tests `< 31`, so tag 31 is rejected like any unknown tag. `Config.KeyActionAt` follows the decoder.
- **Failures.** Every `unwrap` and every `unimplemented!()` stops the program. Here the decode ends with a `Failure` instead:
  - `UnexpectedEof` — a read ran past the end of the buffer;
  - `InvalidUtf8` — a string's bytes are not UTF-8;
  - `UnknownModuleSlot(b)` — a slot byte is not a known module slot;
  - `Unimplemented(tag)` — an undecoded key or macro action tag.
- **Position after a failure.** A failed decode also reports the position the cursor is left at. A primitive read that runs out of bytes is taken not to move. This is how `std::io::Cursor::read_exact` behaved in the standard library of the nightly toolchain the program is built with (`src/main.rs:1` enables a nightly feature): it checked the length before copying. Later versions move the position to the end of the data instead. A string whose bytes are not UTF-8 has already consumed them. The program never reads again after a failure, so this position is not observable there.
- **Timeouts.** The transport is a scripted device. It logs the frames written to it and answers reads from a queue of replies fixed in advance. A read with no reply left is a timeout: it copies nothing, so the zeroed report buffer stays zero.

## Model

| member | source | states |
|---|---|---|
| `Bytes.Le16Bytes` | src/device.rs:55-56 | the two bytes of a u16 reassemble, little-endian, to the same value |
| `Bytes.Le32Bytes` | src/device.rs:101-103 | the four bytes of a u32 reassemble, little-endian, to the same value |
| `Bytes.Le16Injective` | src/device.rs:180-182 | a little-endian u16 determines its two bytes |
| `Bytes.Le32Injective` | src/device.rs:183-185 | a little-endian u32 determines its four bytes |
| `Utf8.ConcatValid` | src/device.rs:199 | two well-formed UTF-8 texts concatenate to a well-formed text |
| `Utf8.AsciiValid` | src/device.rs:199 | every 7-bit ASCII byte sequence is accepted as UTF-8 |
| `Utf8.BadLeadInvalid` | src/device.rs:199 | a sequence starting with a continuation byte or with C0, C1 or F5..FF is rejected |
| `Consts.ModuleSlotsFrom` | src/consts.rs:5-14 | the conversion from a byte succeeds exactly for 0..=5 and gives the slot with that discriminant |
| `Consts.ModuleSlotsRoundTrip` | src/consts.rs:5-14 | converting a slot to its byte and back gives the slot again |
| `Consts.ModuleSlots.ToByte` | src/consts.rs:7-14 | every slot's discriminant is at most 5 |
| `Consts.UsbCommand.ToByte` | src/consts.rs:18-40 | every opcode lies in 0x00..0x14 |
| `Consts.UsbCommandInjective` | src/consts.rs:18-40 | distinct commands have distinct opcodes |
| `Consts.ConfigBufferId.ToByte` | src/consts.rs:49-53 | the buffer ids are 0, 1 and 2 |
| `Consts.DevicePropertyIds.ToByte` | src/consts.rs:57-66 | the property ids lie in 0..7 |
| `Consts.UsbVariables.ToByte` | src/consts.rs:91-97 | the variable ids lie in 0..4 |
| `Consts.KeystrokeType.ToByte` | src/consts.rs:155-160 | every keystroke kind is a 2-bit code |
| `Consts.KeystrokeTypeFrom` | src/consts.rs:155-160 | every 2-bit code names the kind whose discriminant it is, so the four kinds cover all codes |
| `Consts.KeyActionIdsDisjoint` | src/consts.rs:127-143 | tag 0 and tags 32..35 are pairwise distinct, and none of them is in the keystroke range 1..30 |
| `Consts.MacroActionIdsDisjoint` | src/consts.rs:101-123 | the key range 0..=63 and the mouse button range 64..=66 do not overlap, and tags 67..71 follow them in order |
| `Consts.KeystrokeFlagsSingleBits` | src/consts.rs:147-151 | the keystroke flags are the bits 1, 2 and 4, and no two of them share a bit |
| `Cursor.UhkCursor.constructor` | src/device.rs:169-173 | a new cursor holds the buffer at position 0 |
| `Cursor.UhkCursor.ReadU8` | src/device.rs:177-179 | returns the byte at the position and advances 1, or fails with end of data without moving |
| `Cursor.UhkCursor.ReadBool` | src/device.rs:174-176 | returns whether the byte read is non-zero |
| `Cursor.UhkCursor.ReadU16` | src/device.rs:180-182 | returns the little-endian u16 at the position and advances 2, or fails without moving |
| `Cursor.UhkCursor.ReadU32` | src/device.rs:183-185 | returns the little-endian u32 at the position and advances 4, or fails without moving |
| `Cursor.UhkCursor.ReadCompactLength` | src/device.rs:186-193 | reads the one-byte or escaped three-byte length exactly as the specification function does |
| `Cursor.UhkCursor.ReadString` | src/device.rs:194-200 | reads the length, then exactly that many bytes, and returns them only if they are UTF-8 |
| `Cursor.FixedWidthReads` | src/device.rs:177-185 | u8, u16 and u32 reads succeed exactly when 1, 2 or 4 bytes remain, advance by that width, assemble little-endian, and fail with end of data without moving |
| `Cursor.BoolIsNonZero` | src/device.rs:174-176 | a bool read succeeds exactly when a byte remains, and yields whether that byte is non-zero |
| `Cursor.CompactLengthForms` | src/device.rs:186-193 | a byte other than 0xFF is the length and takes 1 byte; 0xFF is followed by a little-endian u16 and takes 3 bytes; the read fails exactly when those bytes are missing |
| `Cursor.CompactLengthExamples` | src/device.rs:186-200 | 0x05 gives 5, 0xFE gives 254, `FF 00 01` gives 256 in 3 bytes, and a string one byte short of its length fails with end of data |
| `Cursor.CompactLengthRoundTrip` | src/device.rs:186-193 | the shortest encoding of any u16 length decodes back to that length and takes exactly its bytes |
| `Cursor.StringConsumes` | src/device.rs:194-200 | a string read consumes its length prefix plus exactly that many bytes; it fails with end of data when fewer remain, and with invalid UTF-8 when they are not UTF-8 |
| `Cursor.StringRoundTrip` | src/device.rs:194-200 | the encoding of any text shorter than 65536 bytes decodes back to it, whatever surrounds it |
| `Counted.Repeat` | src/config.rs:152-154 | a decoded sequence of n items has exactly n items |
| `Counted.FailurePersists` | src/config.rs:152-154 | once an item fails, decoding more items returns that same failure |
| `Counted.PrefixDecoded` | src/config.rs:152-154 | the first i items of a decoded sequence are themselves a decoded sequence |
| `Counted.ItemAt` | src/config.rs:175-177 | item i is decoded where the first i items end, and the next item starts where it ends |
| `Counted.FailsAtFirstFailingItem` | src/config.rs:192-194 | the sequence fails exactly when some item fails after all earlier items succeeded, and it then fails as that item does |
| `Counted.FirstFailure` | src/config.rs:192-194 | a failed sequence has a first failing item, and its failure is the sequence's failure |
| `Counted.FixedWidthItems` | src/main.rs:61-72 | n items of fixed width w take exactly n·w bytes and fail only for want of them |
| `Counted.CountedAt` | src/config.rs:151-154 | a decoded section holds exactly as many items as its compact count says |
| `Config.DeserializeHardwareConfig` | src/config.rs:23-44 | reads the hardware configuration field by field, as `HardwareConfigAt` describes, and leaves the cursor where that function says |
| `Config.DeserializeMouseConfig` | src/config.rs:62-85 | reads the ten mouse fields, as `MouseConfigAt` describes |
| `Config.DeserializeUserConfig` | src/config.rs:106-133 | reads the user configuration with its inline mouse configuration, as `UserConfigAt` describes |
| `Config.DeserializeKeymapConfig` | src/config.rs:146-162 | reads the keymap header and its layers, as `KeymapConfigAt` describes, and leaves the cursor where that function says |
| `Config.CollectLayers` | src/config.rs:151-154 | the layer loop reads exactly n layers in sequence, or fails as the first failing one does; its invariant keeps the layers read equal to the specified prefix |
| `Config.DeserializeLayerConfig` | src/config.rs:172-179 | reads a layer id, then exactly the declared number of modules, failing as the first failing module does |
| `Config.DeserializeModuleConfig` | src/config.rs:189-196 | reads a module id, then exactly the declared number of key actions, failing as the first failing action does |
| `Config.DeserializeKeyAction` | src/config.rs:210-252 | decodes one key action through the flag-byte branches, as `KeyActionAt` describes |
| `Config.KeystrokeKind` | src/config.rs:218 | the kind extracted from a tag is a 2-bit value |
| `Config.FlagBits` | src/config.rs:218-233 | each flag test is the matching bit of the tag, and the kind is bits 3 and 4 |
| `Config.KeyActionConsumes` | src/config.rs:210-252 | a key action decodes exactly when its tag is 0, 1..30 or 32..34 and all its bytes are present; it then takes 1, 1 + field widths, 3 or 2 bytes; any other tag fails with that tag right after it |
| `Config.KeystrokeFields` | src/config.rs:214-238 | tags 1..30 give a keystroke whose scancode, mask and role are present exactly when bits 0, 1 and 2 are set, read in that order; the scancode is two little-endian bytes exactly for kind 2 |
| `Config.NeverPlayMacro` | src/config.rs:249-251 | no tag decodes to `PlayMacroAction`, and tag 35 fails |
| `Config.KeyActionExamples` | src/config.rs:210-252 | `[1, 4]`, `[17, 0x34, 0x12]`, `[34, x]` and `[200]` decode to the expected action and consumption, or to the expected failure |
| `Config.KeyActionRoundTrip` | src/config.rs:210-252 | the encoding of every encodable key action decodes back to it and takes exactly its bytes |
| `Config.KeystrokeFieldsRoundTrip` | src/config.rs:219-237 | the field bytes of an encodable keystroke decode back to it under its own tag |
| `Config.KeystrokeTagFlags` | src/config.rs:217-233 | the tag of an encodable keystroke sets exactly the bits of its present fields, and names its kind |
| `Config.ScancodeRoundTrip` | src/config.rs:219-227 | an encoded scancode decodes back: two bytes for long media, one byte otherwise |
| `Config.OptionalRoundTrip` | src/config.rs:228-237 | an optional byte decodes back exactly when its flag is set |
| `Config.KeyActionBytesOfDecoded` | src/config.rs:210-252 | every decoded key action is encodable, and re-encoding it gives exactly the bytes consumed |
| `Config.KeystrokeBytesOfDecoded` | src/config.rs:214-238 | a decoded keystroke re-encodes to its tag followed by the field bytes consumed |
| `Config.KeystrokeTagOfDecoded` | src/config.rs:214-237 | a keystroke tag in 1..30 is rebuilt from its kind and the fields it makes present |
| `Config.KeystrokeFieldBytes` | src/config.rs:219-238 | the fields of a decoded keystroke re-encode to the bytes they were read from |
| `Config.ScancodeBytesOfDecoded` | src/config.rs:219-227 | a decoded scancode re-encodes to the bytes it was read from, and fits a byte unless the kind is long media |
| `Config.OptionalBytesOfDecoded` | src/config.rs:228-237 | a decoded optional byte re-encodes to the bytes it was read from |
| `Config.MouseConfigConsumes` | src/config.rs:62-85 | a mouse configuration decodes exactly when 10 bytes remain; it takes those bytes in field order, and otherwise fails with end of data at the end of the buffer |
| `Config.HardwareConfigConsumes` | src/config.rs:23-44 | a hardware configuration is its signature string plus 11 bytes, namely 5 single bytes, a little-endian u32 and two bools; once the string decodes, it fails only with end of data |
| `Config.UserConfigConsumes` | src/config.rs:106-133 | a user configuration is 8 bytes of u16 fields, the name string, then 15 bytes; the length field is read but success does not depend on it |
| `Config.UserConfigDecodes` | src/config.rs:106-133 | once the name decodes and 15 bytes follow it, the user configuration is its little-endian header fields, the name, and the fields after it, ending 15 bytes after the name |
| `Config.ModuleConfigChildren` | src/config.rs:189-196 | a decoded module holds exactly the declared count of key actions, decoded in sequence, and fails exactly when one of them fails |
| `Config.LayerConfigChildren` | src/config.rs:172-179 | a decoded layer holds exactly the declared count of modules, and fails exactly when one of them fails |
| `Config.KeymapConfigChildren` | src/config.rs:146-162 | a decoded keymap holds its header fields and exactly the declared count of layers, and fails exactly when one of them fails |
| `Buffers.DecodeHardwareBuffer` | src/main.rs:47-51 | decodes one hardware configuration from offset 0 of a fresh cursor |
| `Buffers.DecodeUserBuffer` | src/main.rs:53-111 | decodes the user configuration, then the module pointer, macro and keymap sections in that order, as `UserBufferAt` describes |
| `Buffers.ReadModulePointers` | src/main.rs:61-72 | the module pointer loop reads exactly n entries in sequence, or fails as the first failing one does |
| `Buffers.ReadMacros` | src/main.rs:76-105 | the macro loop reads exactly n macros in sequence, or fails as the first failing one does |
| `Buffers.ReadKeymaps` | src/main.rs:107-111 | the keymap loop reads exactly n keymaps in sequence, or fails as the first failing one does |
| `Buffers.ReadModulePointer` | src/main.rs:63-71 | reads five bytes, a u16 and three bytes, as `ModulePointerAt` describes |
| `Buffers.ReadMacro` | src/main.rs:78-83 | reads the two flags, the name and the action count, then that many actions |
| `Buffers.ReadMacroActions` | src/main.rs:83-104 | the inner loop reads exactly n macro actions in sequence, or fails as the first failing one does |
| `Buffers.ReadMacroAction` | src/main.rs:84-103 | decodes the command action and fails on every other tag, as `MacroActionAt` describes |
| `Buffers.ModulePointerConsumes` | src/main.rs:63-71 | a module pointer entry decodes exactly when 10 bytes remain; it takes them, with the angular shift little-endian at offsets 5 and 6 |
| `Buffers.ModulePointersTakeTenEach` | src/main.rs:59-72 | n module pointer entries take exactly 10·n bytes and fail only for want of them |
| `Buffers.ModulePointerRoundTrip` | src/main.rs:63-71 | the 10-byte encoding of any entry decodes back to it |
| `Buffers.MacroActionConsumes` | src/main.rs:84-103 | a macro action decodes exactly when its tag is 71 and a string follows; every other tag (0..63, 64..66, any other) fails right after the tag |
| `Buffers.MacroActionRoundTrip` | src/main.rs:97-99 | tag 71 followed by an encoded string decodes back to that command |
| `Buffers.MacroChildren` | src/main.rs:76-105 | a decoded macro holds its two flags, its name and exactly the declared count of actions, and fails exactly when one action fails |
| `Buffers.MacroRejectsOtherActions` | src/main.rs:84-103 | a macro whose first action has a tag other than 71 fails with that tag |
| `Buffers.UserBufferSections` | src/main.rs:56-111 | in a decoded user buffer, the user configuration starts at 0, the module pointer section spans exactly its count (1 byte, or 3 after an 0xFF escape) plus 10 bytes per declared entry, and each section starts where the previous one ended and holds exactly its declared count |
| `Device.Overlay` | src/device.rs:58-59 | after a read, the report buffer holds the reply's bytes over its start and keeps its other bytes |
| `Device.FrameAt` | src/device.rs:58-59 | every frame read is a full 64-byte report |
| `Device.HidDevice.Write` | src/device.rs:50-57 | writing a frame appends it to the log and consumes no reply |
| `Device.HidDevice.ReadTimeout` | src/device.rs:58-59 | a read consumes the next reply and copies it over the buffer; a timeout leaves the buffer as it was |
| `Device.ReadConfigRequestLayout` | src/device.rs:50-57 | a chunk request is `[0, 0x04, buffer id, 63, offset lo, offset hi]`, with chunk size 63 on every round |
| `Device.ConfigSizeSelection` | src/device.rs:41-44 | both sizes are multiples of 256 up to 510·256; the hardware buffer uses bytes 1 and 2, the user buffers bytes 3 and 4, and the narrowing to u16 wraps sums of 256 or more |
| `Device.UptimeBytes` | src/device.rs:101-103 | the uptime is the little-endian u32 whose bytes are frame bytes 1..5 |
| `Device.DeviceStateFields` | src/device.rs:139-148 | the state decodes exactly when bytes 4 and 5 are known slots, the left slot being checked first; the active layer is below 128 and, with the toggle bit, gives back byte 6 |
| `Device.LayerSplit` | src/device.rs:143-144 | the low seven bits of a byte (`& 0x7f`, its remainder by 0x80) and its top bit (`& 0x80 != 0`) give the byte back |
| `Device.ChunkLength` | src/device.rs:49 | each round reads between 1 and 63 bytes without passing `size`, and reads fewer than 63 only when it ends exactly at `size` |
| `Device.ChunksFrom` | src/device.rs:48-62 | the bytes the loop appends from any offset are exactly `size - offset` many |
| `Device.RoundsCount` | src/device.rs:48-49 | from `offset` the loop runs `(size - offset)` divided by 63, rounded up, times |
| `Device.RequestsCount` | src/device.rs:48-57 | one chunk request is sent per round |
| `Device.RequestsContent` | src/device.rs:48-57 | request k asks for offset `start + 63·k`, which lies below `size` |
| `Device.ChunksContent` | src/device.rs:58-60 | byte 63·k + m of the buffer is payload byte m (frame byte m + 1) of the k-th reply |
| `Device.ChunksOf130` | src/device.rs:45-62 | 130 bytes take 3 rounds of 63, 63 and 4 bytes, and the buffer is the three payload slices concatenated |
| `Device.ChunkRound` | src/device.rs:48-61 | one round appends its payload slice, logs its request and consumes one reply, and what is left is the same loop from the new offset |
| `Device.Device.constructor` | src/device.rs:29-32 | the device wraps the given HID handle |
| `Device.Device.Exchange` | src/device.rs:50-59 | writes the request, then reads the next reply into a zeroed 64-byte buffer |
| `Device.Device.GetConfigSize` | src/device.rs:80-92 | sends the config-sizes property request and returns both sizes as the program computes them |
| `Device.Device.Uptime` | src/device.rs:93-104 | sends the uptime request and returns the little-endian u32 of frame bytes 1..5 |
| `Device.Device.GetVariable` | src/device.rs:105-111 | sends the get-variable request and returns frame byte 1 |
| `Device.Device.State` | src/device.rs:134-149 | sends the device-state request and returns the state that `DeviceStateOf` decodes from the reply |
| `Device.Device.LoadConfig` | src/device.rs:39-64 | returns exactly `size` bytes, namely `ChunksFrom` over the replies after the size reply; it logs the size request and then one chunk request per round, and consumes one reply per round |
| `Device.Device.ReadChunks` | src/device.rs:45-63 | the `while offset < size` loop terminates with the data, the log and the reply queue that `ChunksFrom`, `RequestsFrom` and `RoundsFrom` give from offset 0; its invariants say that the rounds left from `offset` complete them |

## Left out

- HID failures are not modelled. These are the `HidError`s of `write` and `read_timeout`, propagated by `?` in `src/device.rs`. The transport here never fails, and a timeout transfers no bytes.
- The byte count returned by `read_timeout` is not modelled, and neither is its 1000 ms timeout. The program ignores the count, and the timeout is timing.
- `Device::wait` is not modelled. It polls the EEPROM-busy flag with `thread::sleep` and has no bound; its point is timing. `State` decodes the flag it polls.
- `set_test_led`, `set_brightness` and `get_module_property` are not modelled. The first two are deprecated, and none of them decodes anything. Also not modelled is the `CStr` printing of module properties in `src/main.rs:33-46`.
- The first lines of `src/main.rs` are not modelled: device discovery (`src/lib.rs`), the product constants (`src/models.rs`), and the `dbg!` printing of the state, uptime and variables. The calls themselves are modelled as `Device.Device.State`, `Uptime` and `GetVariable`.
- `dbg!` output and `env_logger` are left out. The decoded module pointers and macros, which the program only prints, are returned as values.
- `Device.Device.Uptime` returns milliseconds as a `u32` rather than a `Duration`.
- These tables are not modelled, because no decoder reads them: `EepromOperation`, `EnumerationModes`, `KbootCommands`, `ModulePropertyId`, `SwitchLayerMode`, `MouseActionParam` and `LAYER_NUMBER_TO_STRING`. The macro action tags 67 to 70 are modelled as constants only, since the program rejects them.
- The position a cursor is left at after a failed read is an assumption. It follows `read_exact` as described above, and the program never observes it.
- Panics are not modelled as panics. The `unimplemented!()` of the key action and macro action decoders, and every `unwrap` in `src/main.rs`, become a returned `Failure`.
