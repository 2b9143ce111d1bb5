# volcano-bt: the Volcano temperature codec and device record, in Dafny

This project models the core of `volcanobt/volcano.py`, a Bluetooth LE client for a Volcano vaporizer.

- **Temperature register codec** (`codec.dfy`, module `TemperatureCodec`). The current-temperature and target-temperature characteristics each carry one unsigned 32-bit little-endian integer (`struct` format `<I`) in tenths of a degree. The model has three parts:
  - Explicit `<I` unpack and pack functions. Each is checked against a recursive reference definition of little-endian layout, `LeValue` and `LeBytes`.
  - The two decode paths the source uses. A notification rounds `raw / 10` half to even, as Python's `round` does. An explicit read truncates with `int(raw / 10)`.
  - The encode path, which packs `t * 10`.
- **Device record** (`volcano.dfy`, module `VolcanoDevice`). The class `Volcano` has the source's fields. Its methods update them in place:
  - two notification handlers;
  - `initialize_values`, which runs the two explicit reads;
  - `set_target_temperature`;
  - the two toggles.

  Each method's postcondition says which fields it changes, and its `modifies` clause names only the fields it assigns (the two read methods have none). Each method is also tied to a pure transition function, `Step`, over a `DeviceState` snapshot. Lemmas about sequences of steps (`Run`) state properties that span several calls.

The BLE transport is represented by values:
- A read or a notification is the byte payload it delivers, passed in as a parameter.
- A write is appended to the ghost log `Volcano.writes` as a `(uuid, bytes)` pair.

Bytes are integers in 0..255. The source divides by 10 in floating point. The model uses exact integer arithmetic instead, which gives the same results for every raw value below 2^32:
- A multiple of 10 gives an exact integer quotient, because 10k/10 is exact in IEEE division.
- A raw value ending in 5 gives an exactly representable `.5` quotient.
- Every quotient of a raw value ending in 1-4 or 6-9 lies at least 0.1 from a rounding or truncation boundary, which is far more than the float error.

Facts about the code that shape the model:
- The code has no status-register decoding, no overflow sentinel, no change callbacks and no Celsius/Fahrenheit conversion.
- `set_target_temperature` does not update the local target: the assignment at `volcano.py:94` is commented out.
- Notifications round half to even and reads truncate, so the two paths can disagree by one degree (`NotifyVersusRead`).

## Model

| member | source | states |
|---|---|---|
| TemperatureCodec.UnpackU32LE | volcanobt/volcano.py:76 | `unpack('<I', …)` succeeds exactly on 4-byte payloads and gives their little-endian value, below 2^32; any other length is a `WrongLength` error |
| TemperatureCodec.PackU32LE | volcanobt/volcano.py:92 | `pack('<I', v)` succeeds exactly when 0 <= v < 2^32, giving 4 bytes whose little-endian value is v; otherwise an `OutOfRange` error |
| TemperatureCodec.LeValueOfLeBytes | volcanobt/volcano.py:92 | the little-endian layout of a value that fits in n bytes reads back as that value |
| TemperatureCodec.LeBytesOfLeValue | volcanobt/volcano.py:76 | laying out the little-endian value of a byte string in as many bytes gives the string back |
| TemperatureCodec.UnpackOfPack | volcanobt/volcano.py:92 | unpacking a packed value in 0 .. 2^32-1 returns the value |
| TemperatureCodec.PackOfUnpack | volcanobt/volcano.py:76 | packing an unpacked 4-byte payload returns the payload, so `<I` is a bijection |
| TemperatureCodec.RoundHalfEvenTenths | volcanobt/volcano.py:78 | `round(raw / 10)` is within half a degree of raw/10 and, on a tie, even |
| TemperatureCodec.RoundHalfEvenTenthsUnique | volcanobt/volcano.py:105 | those two properties determine the rounded value uniquely |
| TemperatureCodec.TruncateTenths | volcanobt/volcano.py:85 | `int(raw / 10)` is the whole number of degrees not above raw/10 |
| TemperatureCodec.DecodeNotified | volcanobt/volcano.py:101-105 | a notification payload decodes iff it is 4 bytes, to its value / 10 rounded half to even, at most 429496730 |
| TemperatureCodec.DecodeRead | volcanobt/volcano.py:112 | a read payload decodes iff it is 4 bytes, to its value / 10 truncated, at most 429496729 |
| TemperatureCodec.EncodeTargetTemperature | volcanobt/volcano.py:92 | the target payload exists iff 0 <= 10t < 2^32 and is 4 bytes whose little-endian value is 10t |
| TemperatureCodec.ReadRoundTrip | volcanobt/volcano.py:112 | an encoded target t decodes to t on the read path |
| TemperatureCodec.NotifyRoundTrip | volcanobt/volcano.py:105 | an encoded target t decodes to t on the notification path |
| TemperatureCodec.NotifyVersusRead | volcanobt/volcano.py:76-85 | for one payload the notified value equals the read value or exceeds it by one, and exceeds it iff the tenths digit is above 5, or is 5 after an odd whole degree |
| TemperatureCodec.Raw219 | volcanobt/volcano.py:85 | raw 219 reads as 21 and notifies as 22 |
| TemperatureCodec.Raw215 | volcanobt/volcano.py:78 | raw 215 reads as 21 and notifies as 22 (tie to even) |
| TemperatureCodec.Raw205 | volcanobt/volcano.py:105 | raw 205 reads and notifies as 20 (tie to even, not away from zero) |
| VolcanoDevice.SetTargetKeepsState | volcanobt/volcano.py:91-98 | setting the target leaves the whole local state unchanged |
| VolcanoDevice.ToggleTwiceRestores | volcanobt/volcano.py:122-126 | toggling the heater twice, or the pump twice, restores the state |
| VolcanoDevice.TargetChangesOnlyFromDevice | volcanobt/volcano.py:94 | over any run without target notifications or initial reads, the local target temperature never changes |
| VolcanoDevice.InfoFieldsNeverSet | volcanobt/volcano.py:45-49 | no operation sets auto-off time, operation hours, serial number or either firmware version |
| VolcanoDevice.HeaterFollowsToggleParity | volcanobt/volcano.py:122-123 | after any run the heater flag is its start value flipped once per heater toggle |
| VolcanoDevice.PumpFollowsToggleParity | volcanobt/volcano.py:125-126 | after any run the pump flag is its start value flipped once per pump toggle |
| VolcanoDevice.Volcano.constructor | volcanobt/volcano.py:38-49 | a new Volcano has temperature 0, target 0, heater and pump off, every info field unset, and no writes |
| VolcanoDevice.Volcano.ReadTemperature | volcanobt/volcano.py:80-85 | the current-temperature read succeeds iff the payload is 4 bytes, giving raw/10 truncated; no state changes |
| VolcanoDevice.Volcano.ReadTargetTemperature | volcanobt/volcano.py:107-112 | the target-temperature read succeeds iff the payload is 4 bytes, giving raw/10 truncated; no state changes |
| VolcanoDevice.Volcano.InitializeValues | volcanobt/volcano.py:57-61 | sets temperature and then target from the read path; a failing first read changes nothing, a failing second read keeps the new temperature and the old target |
| VolcanoDevice.Volcano.TemperatureChanged | volcanobt/volcano.py:75-78 | sets only the temperature, to raw/10 rounded half to even; a payload that is not 4 bytes raises and changes nothing |
| VolcanoDevice.Volcano.TargetTemperatureChanged | volcanobt/volcano.py:100-105 | sets only the target temperature, to raw/10 rounded half to even; a payload that is not 4 bytes raises and changes nothing |
| VolcanoDevice.Volcano.SetTargetTemperature | volcanobt/volcano.py:91-98 | appends exactly one write of the 4-byte `<I` layout of 10t to the target UUID, and that payload decodes back to t on both paths; it raises without writing when 10t is outside 0 .. 2^32-1; local state is unchanged |
| VolcanoDevice.Volcano.ToggleHeater | volcanobt/volcano.py:122-123 | negates the heater flag and changes nothing else |
| VolcanoDevice.Volcano.TogglePump | volcanobt/volcano.py:125-126 | negates the pump flag and changes nothing else |

## Left out

- `connect` and `register_notifications` (`volcano.py:51-69`) are connection setup over the BLE library. The payloads they would deliver are method parameters here.
- Logging and the `async` scheduling are not modelled. The model treats every call as atomic.
- `volcanobt/connection.py` is not part of this model. Transport failures of `read_gatt_char` and `write_gatt_char` are not modelled.
- VolcanoDevice.Volcano.SetTargetTemperature: assumes the transport write succeeds once the payload is packed. A failing `write_gatt_char` would raise after the payload was built.
- VolcanoDevice.Volcano.SetTargetTemperature: takes an integer. Any float argument makes `struct.pack('<I', …)` raise, even an integral one such as 1850.0, and that case is not modelled.
- The read-only properties `temperature`, `target_temperature`, `heater_on` and `pump_on` (`volcano.py:71-120`) only return a field. The model's fields are public, so no separate member is needed.
- `VOLCANO_HEATER_ON_MASK` and `VOLCANO_PUMP_ON_MASK` (`volcano.py:32-33`) are never used by the code, so they are not modelled. The same goes for every UUID constant except the target-temperature one, which labels writes. Reads are not logged, so the current-temperature UUID is not needed.
- The terminal UI (`volcanobt/main.py`, `volcanobt/fain.py`) and the command-line stub (`volcanobt/cli.py`) are not part of this model.
