# ABB B23 M-Bus to MQTT bridge: decoders and supervisor, modelled in Dafny

The bridge polls an ABB B23 electricity meter over M-Bus. It sends two short request
frames, decodes the two response telegrams into a dictionary of named measurements and
publishes that dictionary over MQTT. Around the polling loop it keeps a few pieces of
state:

- a counter of consecutive failed polls, which signals a restart at 5;
- the time of the last successful read, which a watchdog compares with a maximum age;
- a flag that says whether the MQTT connection is up.

This project models:

- **`Decode`** (`decode.dfy`): the two telegram decoders.
  - A telegram is a sequence of bytes, and each decoder reads fixed absolute offsets in it.
  - Every measurement is exact: a raw integer and its number of decimal places. Energy has 3, power and current 2, voltage 1.
  - A frame that is too short raises, and so does the decode; this is modelled as a `Result` failure.
- **`Bytes`** (`bytes.dfy`): the byte-level readers the decoders rely on.
  - `struct.unpack('<i')`, `'<I'` and `'<Q'`.
  - A general recursive little-endian reader and writer.
  - 32-bit two's complement.
  - `binascii.hexlify` and its inverse.
- **`TelegramProperties`** (`telegram_properties.dfy`): properties of the decoders. These cover:
  - when each decoder succeeds, and the exact key set;
  - what each entry holds;
  - that each measurement depends only on its own bytes, and that the fields are pairwise disjoint;
  - round trips through the meter's encoding of a value;
  - the serial number.
- **`Sensor`** (`sensor.dfy`): the decision logic of the polling program.
  - The two request frames, as EN 13757-2 link-layer short frames, with a parser that inverts them.
  - The merge `dict(telegram1, **telegram2)`.
  - One acquisition round, as a function of what the bus answered.
  - The failure counter as a fold over poll outcomes, and the watchdog's staleness test.
  - A `Supervisor` class. Its fields are the program's globals and the poller's counter. Its methods are `on_connect`, `on_disconnect`, `mbus_fetch_data`, `mqtt_publish_sensor_data`, one iteration of the polling loop, the counter part of that loop, and one watchdog tick.

Dictionary keys are the constructors of `Decode.Key`. `Decode.Name` gives each key its
spelling, and `NamedKey` and `NameInjective` show that no two keys share a spelling. A map
keyed by `Key` therefore stands for the string-keyed dictionary.

Where the program's design notes and its code disagree, the code is followed:

- The description has the watchdog stop after signalling. In the code, `check_health` loops forever.
- `os.system("exit 1")` only runs a shell that exits; it does not end the Python process. After the fifth consecutive failure, every further failure therefore signals again. The model emits the signal as a boolean each time.
- The description mentions a BCD decoder and a frequency field. Neither is in the code, so neither is modelled.
- Both request frames hard-code address byte `0x01`. The configured meter address is passed only to the serial library, which is not part of this model.

## Model

| member | source | states |
|---|---|---|
| `Decode.DecodeTelegram1` | sensor/decode.py:4-15 | succeeds iff the frame has at least 28 bytes; a failure names a length the frame lacks; on success the record is exactly `energy_total`, the 48-bit field at 22 in thousandths |
| `Decode.DecodeTelegram2` | sensor/decode.py:17-123 | succeeds iff the frame has at least 199 bytes (no partial record); a failure names a length the frame lacks |
| `Decode.Slice` | sensor/decode.py:20 | Python slicing clamps: within bounds it is the subsequence, and it has full length iff the end is within the frame |
| `Decode.ReadByte` | sensor/decode.py:21-23 | `int(t[i])` succeeds iff i is inside the frame and is then byte i |
| `Decode.ReadInt32` | sensor/decode.py:26-43 | `struct.unpack('<i', t[off:off+4])` succeeds iff 4 bytes are there, and then is the signed little-endian value of those bytes |
| `Decode.ReadUint48` | sensor/decode.py:46-48 | unpacking 6 bytes padded with two zero bytes as `'<Q'` succeeds iff 6 bytes are there, and then is their 48-bit unsigned value |
| `Decode.Telegram2Layout` | sensor/decode.py:26-48 | every key but `metadata` and `energy_total` has a telegram-2 field, starting at byte 22 or later and ending by byte 199; a field is a 48-bit unsigned one exactly when it is an energy field in thousandths, and the rest are signed 32-bit |
| `Decode.ReadField` | sensor/decode.py:26-48 | reading one layout field succeeds iff it lies within the frame, and then yields that field's entry |
| `Decode.ReadFields` | sensor/decode.py:26-48 | reading the fields in source order succeeds iff every one fits; the record's keys are exactly those read, and each maps to its own field's entry |
| `Decode.MeasurementKey` | sensor/decode.py:26-48 | the keys read by telegram 2 are exactly those with a layout field, which are all keys but `metadata` and `energy_total`; each field lies within bytes 22..198 |
| `Decode.LayoutCovers` | sensor/decode.py:46-48 | all telegram-2 fields fit in a frame iff it has 199 bytes, because the last energy field ends there |
| `Decode.Name` | sensor/decode.py:50-121 | every key's dictionary spelling is non-empty, starts with a lowercase letter and uses only lowercase letters, digits and `_` |
| `TelegramProperties.NamedKey` | sensor/decode.py:50-121 | each key's spelling reads back as that key |
| `TelegramProperties.NameInjective` | sensor/decode.py:50-121 | no two keys share a spelling, so the record is a faithful string-keyed dictionary |
| `TelegramProperties.Telegram1Decoded` | sensor/decode.py:6-13 | a 28-byte frame decodes to the single key `energy_total`, named "Energy, total", whose value is the little-endian unsigned value of bytes 22..27 in thousandths, below 2^48 |
| `TelegramProperties.Telegram1Local` | sensor/decode.py:6 | telegram 1 depends only on bytes 22..27 |
| `TelegramProperties.Telegram1Encoded` | sensor/decode.py:6 | a frame whose bytes 22..27 encode `energy` decodes to exactly `energy` thousandths |
| `TelegramProperties.FieldRawIsLittleEndian` | sensor/decode.py:26-48 | a 32-bit field is the two's-complement little-endian reading of its 4 bytes, and a 48-bit field is the unsigned reading of its 6 bytes |
| `TelegramProperties.FieldRawOfEncodeRaw` | sensor/decode.py:26-48 | a field holding the encoding of a representable value decodes to that value |
| `TelegramProperties.EncodeRawOfFieldRaw` | sensor/decode.py:26-48 | every decoded raw value is representable (in [-2^31, 2^31) or [0, 2^48)), and re-encoding it gives back the field's bytes |
| `TelegramProperties.Telegram2Decoded` | sensor/decode.py:17-123 | a 199-byte frame decodes to a record with exactly `metadata` and the 16 measurement keys; metadata is bytes 7..10 as hex, then bytes 13, 15 and 16; each measurement is its own field decoded and scaled |
| `TelegramProperties.FieldsDisjoint` | sensor/decode.py:26-48 | no two telegram-2 fields overlap |
| `TelegramProperties.OtherFieldUntouched` | sensor/decode.py:26-48 | frames that agree outside one field agree on every field that does not overlap it |
| `TelegramProperties.MetadataUntouched` | sensor/decode.py:20-23 | frames that agree outside a field starting at byte 22 or later agree on the metadata bytes 7..10, 13, 15 and 16 |
| `TelegramProperties.Telegram2OnlyField` | sensor/decode.py:26-121 | changing the bytes of one field changes only that key's entry; the key set and every other entry, metadata included, stay the same |
| `TelegramProperties.Telegram2Encoded` | sensor/decode.py:26-48 | a frame whose field k encodes v decodes measurement k to exactly v at that field's scale |
| `TelegramProperties.Telegram2SerialNumber` | sensor/decode.py:20 | the serial number is 8 lowercase hex digits that decode back to bytes 7..10 |
| `Bytes.LeUnsigned` | sensor/decode.py:6 | a little-endian unsigned value of n bytes is below 256^n |
| `Bytes.LeUnsignedOfLeBytes` | sensor/decode.py:6 | decoding the n-byte little-endian encoding of a value gives the value back |
| `Bytes.LeBytesOfLeUnsigned` | sensor/decode.py:6 | re-encoding a decoded value at the same width gives the bytes back |
| `Bytes.ZeroPad48` | sensor/decode.py:6 | padding 6 bytes with `b'\x00\x00'` and unpacking as `'<Q'` gives their 48-bit value, below 2^48 |
| `Bytes.LeUint32` | sensor/decode.py:26 | the 4-byte little-endian unsigned reading under `'<i'` is below 2^32 |
| `Bytes.LeUint48` | sensor/decode.py:46-48 | a 6-byte little-endian unsigned reading is below 2^48 |
| `Bytes.LeUint64` | sensor/decode.py:6 | `struct.unpack('<Q')` of 8 bytes is below 2^64 |
| `Bytes.LeFixedWidths` | sensor/decode.py:6 | the 4-, 6- and 8-byte unpackers agree with the general little-endian reading |
| `Bytes.Signed32` | sensor/decode.py:26 | the signed reading of a 32-bit pattern is in [-2^31, 2^31) and negative iff the top bit is set |
| `Bytes.Signed32OfUnsigned32` | sensor/decode.py:26 | reading back the 32-bit pattern of a signed integer in [-2^31, 2^31) gives the integer |
| `Bytes.Unsigned32OfSigned32` | sensor/decode.py:26 | re-encoding the signed reading of a pattern below 2^32 gives the pattern |
| `Bytes.LeSigned32` | sensor/decode.py:26 | `'<i'` is in [-2^31, 2^31) and negative iff the last byte's top bit is set |
| `Bytes.Hexlify` | sensor/decode.py:20 | hex text has two characters per byte |
| `Bytes.HexlifyAt` | sensor/decode.py:20 | characters 2i and 2i+1 are the high and low nibble of byte i, in lowercase |
| `Bytes.UnhexlifyHexlify` | sensor/decode.py:20 | the hex text decodes back to its bytes |
| `Sensor.ShortFrameRoundTrip` | sensor/sensor.py:79 | parsing a built short frame gives back C and A, and only that frame parses to them |
| `Sensor.RequestFrames` | sensor/sensor.py:79-92 | both requests are valid short frames to address 1 with C = 0x5B and 0x7B; they differ only in the FCB bit (0x20) of C and in the checksum |
| `Sensor.Merge` | sensor/sensor.py:103 | the merged keys are the union, and on a shared key telegram 2's entry wins |
| `Sensor.MergedTelegrams` | sensor/sensor.py:103 | merging the two decoded telegrams gives all 18 keys, the total energy from telegram 1 and everything else from telegram 2 |
| `Sensor.Acquire` | sensor/sensor.py:69-110 | a round yields a record iff the port opens and both telegrams arrive and decode, and the record is then their merge; the requests sent are a prefix of (first, second), and the second is sent iff telegram 1 decoded |
| `Sensor.AcquireSucceeds` | sensor/sensor.py:69-110 | a round succeeds iff the port opens and the replies are at least 28 and 199 bytes long, and its record is then non-empty with all 18 keys |
| `Sensor.FailuresAfter` | sensor/sensor.py:136-142 | after a run of polls the counter never exceeds its start plus the number of polls |
| `Sensor.RestartAfter` | sensor/sensor.py:139-142 | a restart is signalled only by a failed poll, and only once the start plus the number of polls reaches 5 |
| `Sensor.CounterCountsTrailingFailures` | sensor/sensor.py:124-142 | from 0 the counter is the number of trailing failed polls: those all failed and the one before them, if any, succeeded |
| `Sensor.TrailingFailuresCounted` | sensor/sensor.py:136-139 | if the last m polls failed, the counter from 0 is at least m |
| `Sensor.RestartIffLastFiveFailed` | sensor/sensor.py:126-142 | from 0 a poll signals restart iff it and the four before it all failed |
| `Sensor.FailuresAccumulate` | sensor/sensor.py:139 | k more failures add exactly k to the counter |
| `Sensor.FirstRestartOnFifthFailure` | sensor/sensor.py:126-142 | from 0, or right after a success, the k-th consecutive failure signals iff k >= 5: never before the fifth, and again on every later one |
| `Sensor.Stale` | sensor/sensor.py:118 | stale iff now is strictly later than the last successful read plus the maximum age |
| `Sensor.StaleProperties` | sensor/sensor.py:24-118 | with the initial timestamp 0 the watchdog fires iff now > max; after a read at t it stays quiet up to t + max; once stale it stays stale as time passes |
| `Sensor.Supervisor.constructor` | sensor/sensor.py:24-25 | start-up state: timestamp 0, not connected, no failures counted |
| `Sensor.Supervisor.OnConnect` | sensor/sensor.py:27-34 | connected iff the return code is 0; nothing else changes |
| `Sensor.Supervisor.OnDisconnect` | sensor/sensor.py:36-39 | the flag drops; nothing else changes |
| `Sensor.Supervisor.FetchData` | sensor/sensor.py:69-110 | returns what `Acquire` gives, logs its requests in order, and moves the timestamp to now only when a record was produced |
| `Sensor.Supervisor.PublishSensorData` | sensor/sensor.py:54-66 | when disconnected, one reconnection is attempted; the payload is published iff the flag is up afterwards, and otherwise dropped without raising |
| `Sensor.Supervisor.Step` | sensor/sensor.py:132-142 | a success resets the counter and never signals; a failure adds exactly one and signals iff the count reaches 5 |
| `Sensor.Supervisor.PollAndPublish` | sensor/sensor.py:129-145 | one iteration: fetch; on a record, one publish attempt, with one reconnection attempt first when disconnected and none otherwise; the counter and signal follow the fetch outcome alone, whatever happened to the publish |
| `Sensor.Supervisor.PollLoop` | sensor/sensor.py:124-145 | over a run of polls the counter and each poll's signal agree with `FailuresAfter` |
| `Sensor.Supervisor.CheckHealth` | sensor/sensor.py:113-121 | a watchdog tick signals iff now minus the last successful read exceeds the maximum, a strict comparison |

## Left out

- Float scaling and `round(..., 3)`. Values stay exact: a raw integer and its number of decimal places. That exact decimal is what the float expressions `raw * 0.01`, `raw * 0.1` and `raw / 1000` approximate; `3 * 0.1` is `0.30000000000000004`, not 0.3. For these field widths the float error is far below 0.0005, so `round(..., 3)` yields the double nearest to the exact decimal. The float arithmetic and its rounding are not modelled.
- The serial transport (`serial_for_url`, `send_request_frame`, `recv_frame`, `inter_byte_timeout`) is part of pyserial and pyMeterBus, which are not part of this model. Opening the port and each received frame are inputs (`Sensor.Link`). The requests sent are recorded in a log.
- MQTT client setup, `connect_mqtt`, the paho callbacks as asynchronous events, `json.dumps` and the `{"data": ...}` wrapper are left out. The connection flag after the reconnection wait is an input, and the published records are recorded in a log.
- asyncio scheduling, the sleeps, and the interleaving of the watchdog with the poller are left out. One poll, a run of polls and one watchdog tick are modelled, each on its own.
- `time.time()` is an input to the model. Timestamps are `real`, so the float rounding of `current_time - last_successful_read` is not modelled.
- `os.system`, the process restart, logging and the random client id are left out. A restart is a boolean signal.
- Sensor.Supervisor.PollLoop: models only the counter and its signals over a run of poll outcomes. Fetching and publishing within each iteration are modelled once, by `PollAndPublish`.
- Sensor.Acquire: an exception raised while a request frame is sent is not distinguished from one raised while receiving the answer. Either ends the round with None.
