# pyglaze device communication, modelled in Dafny

pyglaze drives a Glaze terahertz "Le" delay-line device over a serial
port. This project models the part of the library that talks to the
device and proves properties of that model:

- **Protocol V1** (`LeV1`, `src/pyglaze/device/protocols/le_v1.py`): a text
  protocol. Each command is a single letter. Every reply is one line, which
  is stripped and checked for an `ACK` prefix, with retries when a reply is
  missing. Settings go out as little-endian 16-bit integers and the
  scanning list as 32-bit floats. A scan comes back as `12 * n` bytes
  (times, X and Y). The scanning list splits the configured points over
  the intervals by largest remainder.
- **Protocol V2** (`LeV2`, `src/pyglaze/device/protocols/le_v2.py`): a
  framed binary protocol. Each message is an 8-byte header (`AB`,
  reserved byte, protocol version 1, big-endian payload size and
  instruction) followed by the payload. The model covers pinging,
  settings, the scanning list, fetching cos and sin arrays, the serial
  number and status. Its points-per-interval split truncates shares and
  gives the rest to the last interval.
- **The protocol registry** (`Registry`,
  `src/pyglaze/device/protocols/__init__.py`): registers protocol
  classes per device type and version. It negotiates the newest version a
  device accepts (V2 first, then V1) and resolves an explicitly requested
  version.
- **The mock device** (`MockDevice`, `MockProtocol`,
  `src/pyglaze/devtools/mock_device.py`): the state machine that answers
  V1 commands in tests. It includes the factory of named mock ports, fault
  injection for failing scans, and `MockProtocolV1`, which drives the
  mock directly.
- **The asynchronous scanner** (`AsyncScanner`,
  `pyglaze/scanning/_asyncscanner.py`): a worker fills a bounded queue,
  dropping the oldest scan when the queue is full, and reports its health
  over a pipe. The front end starts the worker, reads scans and discards
  stale ones.
- **The documentation code-block extractor** (`Markdown`,
  `tests/docs/markdownparser.py`): collects the fenced `py` blocks of a
  Markdown file and joins them into one program.

Shared pieces:

- `Bytes` holds the byte codecs: 16-bit big- and little-endian, 4-byte
  words, one-byte text, `str.strip` and `rstrip`.
- `SerialPort.Serial` is the serial port, driven by a script of incoming
  bursts. Each `read` consumes at most one burst.
- `Retry` models the `_BackoffRetry` decorator: up to `max_tries`
  attempts, returning the first success or re-raising the last error.
- `Configuration` holds the device configuration fields the core reads.
- `Errors` holds the exception kinds.

Stateful objects are classes with `modifies` clauses. Each method is proved
equal to a step function over values, and the lemmas are stated about
those step functions. Time, randomness and the negotiation outcome of
each version are parameters: an `elapsed` flag, an `Oracle`, and a
`Probe` per version.

## Model

| member | source | states |
|---|---|---|
| Bytes.BE16 | src/pyglaze/device/protocols/le_v2.py:183-187 | `struct.pack(">H", x)` of a 16-bit value is two bytes |
| Bytes.FromBE16 | src/pyglaze/device/protocols/le_v2.py:217-218 | unpacking two bytes big-endian yields a 16-bit value |
| Bytes.BE16RoundTrip | src/pyglaze/device/protocols/le_v2.py:183-187 | unpacking a packed 16-bit value gives the value back |
| Bytes.FromBE16RoundTrip | src/pyglaze/device/protocols/le_v2.py:217-218 | packing an unpacked pair of bytes gives the bytes back |
| Bytes.LE16 | src/pyglaze/device/protocols/le_v2.py:361 | `struct.pack("<H", x)` of a 16-bit value is two bytes |
| Bytes.FromLE16 | src/pyglaze/devtools/mock_device.py:202 | unpacking two bytes little-endian yields a 16-bit value |
| Bytes.LE16RoundTrip | src/pyglaze/device/protocols/le_v2.py:361 | little-endian unpack inverts little-endian pack |
| Bytes.PackLE16 | src/pyglaze/device/protocols/le_v1.py:230-238 | a `uint16` array's `tobytes()` is 2 bytes per value, and bytes 2i..2i+2 are value i in little-endian |
| Bytes.PackLE16Snoc | src/pyglaze/device/protocols/le_v1.py:230-238 | packing one more value appends exactly that value's two bytes |
| Bytes.UnpackLE16 | src/pyglaze/devtools/mock_device.py:199-204 | an even-length buffer decodes to half as many 16-bit values, value i from bytes 2i..2i+2 |
| Bytes.UnpackPackLE16 | src/pyglaze/devtools/mock_device.py:199-204 | decoding what `_raw_byte_send_ints` packs gives back the original values |
| Bytes.Flatten | src/pyglaze/device/protocols/le_v2.py:387 | joining 4-byte words gives 4 bytes per word, word i at bytes 4i..4i+4 |
| Bytes.FlattenSnoc | src/pyglaze/device/protocols/le_v2.py:387 | joining one more word appends exactly that word |
| Bytes.Words | src/pyglaze/device/protocols/le_v2.py:474-475 | a buffer whose length is a multiple of 4 splits into length/4 words, word i from bytes 4i..4i+4 |
| Bytes.WordsFlatten | src/pyglaze/device/protocols/le_v2.py:474-475 | splitting joined words gives the words back |
| Bytes.FlattenWords | src/pyglaze/device/protocols/le_v2.py:474-475 | joining the words of a buffer gives the buffer back |
| Bytes.Encode | src/pyglaze/device/protocols/le_v1.py:228 | encoding text gives one byte per character, equal to its code |
| Bytes.Decode | src/pyglaze/device/protocols/le_v2.py:504 | decoding gives one character per byte, with that code |
| Bytes.Utf8 | src/pyglaze/device/protocols/le_v1.py:270 | strict `decode("utf-8")` succeeds exactly on ASCII, one character per byte, and otherwise raises a `ValueError` |
| Bytes.Utf8Encode | src/pyglaze/device/protocols/le_v1.py:228 | ASCII text encodes to bytes that the strict decoder takes back to that text |
| Bytes.DecodeEncode | src/pyglaze/device/protocols/le_v1.py:228 | a command read back by the device is the command that was encoded |
| Bytes.TrimStartSpec | src/pyglaze/device/protocols/le_v1.py:270 | the left trim is a suffix that does not start with whitespace, and everything cut off is whitespace |
| Bytes.TrimEndSpec | src/pyglaze/device/protocols/le_v1.py:270 | the right trim is a prefix that does not end with whitespace, and everything cut off is whitespace |
| Bytes.StripSpec | src/pyglaze/device/protocols/le_v1.py:270 | `strip()` returns a slice with only whitespace on either side of it, and the slice neither starts nor ends with whitespace |
| Bytes.StripEmptyIff | src/pyglaze/device/protocols/le_v1.py:270 | a stripped reply is empty exactly when the line was all whitespace |
| Bytes.RStrip | src/pyglaze/device/protocols/le_v2.py:504-506 | `rstrip(c)` is a prefix that does not end in `c`, and everything removed is `c` |
| Bytes.NatToString | src/pyglaze/device/protocols/le_v2.py:371 | a number prints as one or more decimal digits |
| Bytes.NatToStringValue | src/pyglaze/device/protocols/le_v2.py:371 | `str(n)` spells exactly `n` in decimal, with a leading zero only for 0 |
| Bytes.Hex16 | src/pyglaze/device/protocols/le_v2.py:159 | `format(x, "#06x")` of a 16-bit value is six characters starting with `0x` |
| Bytes.Hex16Value | src/pyglaze/device/protocols/le_v2.py:159 | the four digits after `0x` spell exactly the value in hexadecimal |
| Bytes.ByteRepr | src/pyglaze/device/protocols/le_v2.py:203-204 | inside `repr`, plain printable bytes show as themselves and other bytes as `\x` and the two hex digits of their value |
| Bytes.BytesRepr | src/pyglaze/device/protocols/le_v2.py:203-204 | `repr` of bytes is `b` and the escaped bytes between matching quotes |
| Bytes.PlainRepr | src/pyglaze/device/protocols/le_v2.py:203-204 | printable bytes with no quote or backslash show as `b'` + their text + `'` |
| SerialPort.ReadOf | src/pyglaze/device/protocols/le_v2.py:262 | `read(n)` returns at most n bytes, a prefix of the next burst; what it leaves of that burst stays pending; an exhausted script reads empty |
| SerialPort.LineLength | src/pyglaze/device/protocols/le_v1.py:270 | `read_until()` stops right after the first newline, or takes the whole burst when it has none |
| SerialPort.ReadShrinksPending | src/pyglaze/device/protocols/le_v1.py:270 | a read either returns nothing or strictly shrinks what is left to read |
| SerialPort.Serial.constructor | src/pyglaze/device/protocols/le_v1.py:319-328 | an open port with the given incoming script, nothing written yet, and the configured timeout |
| SerialPort.Serial.Write | src/pyglaze/device/protocols/le_v1.py:228 | appends the bytes to what was written and changes nothing else |
| SerialPort.Serial.Read | src/pyglaze/device/protocols/le_v1.py:290 | consumes exactly what `ReadOf` says and changes nothing else |
| SerialPort.Serial.ReadUntil | src/pyglaze/device/protocols/le_v1.py:270 | consumes one line as `ReadLineOf` says and changes nothing else |
| SerialPort.Serial.SetTimeout | src/pyglaze/device/protocols/le_v2.py:259 | sets the timeout and changes nothing else |
| SerialPort.Serial.Close | src/pyglaze/device/protocols/le_v1.py:117 | closes the port and changes nothing else |
| Retry.RetryOn | src/pyglaze/device/protocols/le_v1.py:259-261 | the decorated call runs at least once and at most `max_tries` times |
| Retry.SuccessFirstTime | tests/helpers/test_utilities.py:9-18 | a call that succeeds at once returns its value after exactly one call |
| Retry.RetryLast | src/pyglaze/device/protocols/le_v1.py:259-261 | with one try left, the outcome is that of the one call, success or error |
| Retry.RetryAgain | src/pyglaze/device/protocols/le_v1.py:259-261 | a failed call with tries left is followed by a retry on the state it left, with one try fewer |
| Retry.RetryStep | src/pyglaze/device/protocols/le_v1.py:259-261 | the retry loop invariant: the loop state always resumes the same overall outcome |
| Retry.SuccessSecondTime | tests/helpers/test_utilities.py:20-32 | one failure then a success returns the success after exactly two calls |
| Retry.PermanentFailure | tests/helpers/test_utilities.py:34-45 | when every call fails, all `max_tries` calls are made and the last failure is the outcome |
| Retry.SameErrorReraised | tests/helpers/test_utilities.py:34-45 | a call that always raises the same error re-raises that error after `max_tries` calls |
| Retry.SuccessIsFirst | src/pyglaze/device/protocols/le_v1.py:259-261 | a success is the first success, and every earlier call failed |
| Configuration.Intervals | src/pyglaze/device/protocols/le_v1.py:104-107 | `scan_intervals or [Interval(0, 1)]`: never empty, and the configured intervals when there are any |
| Configuration.Linspace | src/pyglaze/device/protocols/le_v1.py:79-84 | `linspace` of an interval has `n` points, point j being the j-th of n |
| Configuration.SweepLength | src/pyglaze/device/protocols/le_v1.py:70-86 | the concatenated scanning list has as many points as the per-interval counts add up to |
| Configuration.SweepEntriesInRange | src/pyglaze/device/protocols/le_v1.py:70-86 | every scanning-list point belongs to an existing interval and has an index below that interval's count |
| Configuration.Floats32 | src/pyglaze/device/protocols/le_v1.py:240-248 | converting to `float32` keeps the length and converts each point in place |
| Configuration.Floors | src/pyglaze/device/protocols/le_v1.py:335-338 | each count is the largest whose points, spread over the total length, stay within the interval's exact share (V1's `int(e)` and V2's `int(total_points * size / total_size)` at le_v2.py:558-561) |
| LeV1.Remainders | src/pyglaze/device/protocols/le_v1.py:340-341 | each remainder is below the total and is exactly what rounding the share down cut off |
| LeV1.Order | src/pyglaze/device/protocols/le_v1.py:343 | `np.flip(np.argsort(remainders))` lists every interval once, largest remainder first |
| LeV1.Awarded | src/pyglaze/device/protocols/le_v1.py:344-345 | the winners' shares are raised by exactly one and the others are unchanged |
| LeV1.LargestRemainder | src/pyglaze/device/protocols/le_v1.py:331-347 | one count per interval; division by zero exactly when there are intervals and all have length zero |
| LeV1.Split | src/pyglaze/device/protocols/le_v1.py:344-345 | each count is its floor or its floor plus one |
| LeV1.LargestRemainderTotal | src/pyglaze/device/protocols/le_v1.py:331-347 | the counts add up to exactly the requested number of points |
| LeV1.LargestRemainderNearShare | src/pyglaze/device/protocols/le_v1.py:331-347 | each count is its exact share rounded down or up |
| LeV1.LargestRemainderPriority | src/pyglaze/device/protocols/le_v1.py:343-345 | when an interval gets an extra point, so does every interval ahead of it by remainder |
| LeV1.ScanningListLength | src/pyglaze/device/protocols/le_v1.py:70-86 | the scanning list has one point per configured point, and fails only when every interval has length zero |
| LeV1.AwardLargest | src/pyglaze/device/protocols/le_v1.py:344-345 | the award loop leaves the array equal to the floors plus one for each of the first `extra` intervals in order |
| LeV1.PointsPerInterval | src/pyglaze/device/protocols/le_v1.py:331-347 | the imperative split computes the largest-remainder split |
| LeV1.ReplyCheck | src/pyglaze/device/protocols/le_v1.py:270-278 | a reply is accepted exactly when it is non-empty and, when checked, starts with `ACK`; an empty one is the "no response" error and a missing `ACK` a device error |
| LeV1.StrippedText | src/pyglaze/device/protocols/le_v1.py:270 | `read_until().decode().strip()` of a line: its stripped text exactly when it is ASCII, else the decoder's `ValueError` |
| LeV1.ResponseAttempt | src/pyglaze/device/protocols/le_v1.py:262-278 | one attempt consumes one line and succeeds exactly when it decodes, is non-empty after stripping and, when checked, starts with `ACK`; it returns the stripped text, and fails with the decoder's `ValueError`, the empty-reply serial fault or a device error |
| LeV1.ReadCleanLine | src/pyglaze/device/protocols/le_v1.py:270 | a device line with a terminator is read whole, and decoding and stripping it gives the reply back |
| LeV1.ResponseOfReply | src/pyglaze/device/protocols/le_v1.py:259-278 | a well-formed reply is returned after one attempt |
| LeV1.ResponseAfterSilence | src/pyglaze/device/protocols/le_v1.py:259-278 | an empty read is retried and the next reply is returned after two attempts |
| LeV1.ResponseAfterUndecodable | src/pyglaze/device/protocols/le_v1.py:259-278 | a line that does not decode, such as `ACK` and the byte 0xff, is a `ValueError` that is retried, and the next reply is returned after two attempts |
| LeV1.ResponseOfSilence | tests/devices/test_protocol_v1.py:19-27 | a silent device yields the "no response" error after all three attempts |
| LeV1.ResponseShrinks | src/pyglaze/device/protocols/le_v1.py:259-278 | getting a response never adds input, and a successful one consumes some |
| LeV1.AttemptShrinks | src/pyglaze/device/protocols/le_v1.py:262-278 | a single attempt never adds input, and a successful one consumes some |
| LeV1.StatusesClean | src/pyglaze/device/protocols/le_v1.py:33-35 | both status strings survive stripping |
| LeV1.StatusOf | src/pyglaze/device/protocols/le_v1.py:157-170 | a status is accepted exactly when it is `SCANNING` or `IDLE`; any other reply is the "Unknown status" error; a read error passes through |
| LeV1.StatusOfStatusLine | src/pyglaze/device/protocols/le_v1.py:157-170 | a status line is returned as that status after one `H` command |
| LeV1.AwaitOn | src/pyglaze/device/protocols/le_v1.py:250-257 | waiting for the scan sends one or more status commands and nothing else |
| LeV1.AwaitUnfold | src/pyglaze/device/protocols/le_v1.py:250-257 | waiting is one status poll followed by what that poll decides |
| LeV1.AwaitStopsOnOtherStatus | src/pyglaze/device/protocols/le_v1.py:250-257 | any status other than `SCANNING` ends the wait after one poll |
| LeV1.AwaitPollsWhileScanning | src/pyglaze/device/protocols/le_v1.py:250-257 | a `SCANNING` status makes the wait poll again |
| LeV1.AwaitThreePolls | src/pyglaze/device/protocols/le_v1.py:250-257 | scanning, scanning, idle: the wait ends after exactly three polls |
| LeV1.BytesToFloats | src/pyglaze/device/protocols/le_v1.py:305-312 | a byte range of 4k bytes becomes k floats whose bytes are exactly that range |
| LeV1.ScanOf | src/pyglaze/device/protocols/le_v1.py:290-303 | a scan is decoded exactly when 12n bytes arrive, and then the three arrays re-encode to those bytes; otherwise it is a serial exception |
| LeV1.ScanAttempt | src/pyglaze/device/protocols/le_v1.py:283-303 | one attempt reads `bytes_to_receive` bytes; it succeeds exactly when all 12n arrive, with three n-point arrays that re-encode to them, and otherwise raises a serial fault |
| LeV1.ReadScanOn | src/pyglaze/device/protocols/le_v1.py:280-303 | reading a scan sends the fetch command between one and five times |
| LeV1.ScanRoundTrip | src/pyglaze/device/protocols/le_v1.py:283-303 | the device's encoding of a scan is read back as that scan after one fetch |
| LeV1.ScanAfterSilence | src/pyglaze/device/protocols/le_v1.py:280-303 | an empty read is retried, and the scan arrives after two fetches |
| LeV1.ScanOfSilence | src/pyglaze/device/protocols/le_v1.py:280-303 | a silent device yields the short-scan serial error after all five fetches |
| LeV1.ScanAttemptOfSilence | src/pyglaze/device/protocols/le_v1.py:290-303 | one attempt on a silent port is the short-scan serial error |
| LeV1.SettingsSent | src/pyglaze/device/protocols/le_v1.py:120-130 | a successful `write_settings` sends `S` and then the packed settings, which decode back to the settings, and returns an `ACK` reply |
| LeV1.SuccessOfAck | src/pyglaze/device/protocols/le_v1.py:270-278 | a checked response, when it succeeds, starts with `ACK` |
| LeV1.ListSent | src/pyglaze/device/protocols/le_v1.py:132-140 | a successful `write_list` sends `L` and then one float32 per configured point, which split back into those words |
| LeV1.StartUnfold | src/pyglaze/device/protocols/le_v1.py:142-155 | start is: the `G` command and its acknowledgement, then the wait, then the scan read, stopping at the first error |
| LeV1.StartOfSteps | src/pyglaze/device/protocols/le_v1.py:142-155 | successful steps compose into a successful start |
| LeV1.StartOfReadyDevice | src/pyglaze/device/protocols/le_v1.py:142-155 | a device that acknowledges, reports idle and sends a scan yields that scan after exactly `G`, `H` and `R` |
| LeV1.FirmwareOfLine | src/pyglaze/device/protocols/le_v1.py:186-193 | the firmware version line is returned stripped after one `v` |
| LeV1.FirmwareOfUndecodable | src/pyglaze/device/protocols/le_v1.py:186-193 | a firmware line that does not decode raises the decoder's `ValueError`, with no retry |
| LeV1.LeProtocolV1.constructor | src/pyglaze/device/protocols/le_v1.py:54-58 | a protocol for this configuration, not connected |
| LeV1.LeProtocolV1.ScanningList | src/pyglaze/device/protocols/le_v1.py:70-86 | computes the largest-remainder sweep, whose length `ScanningListLength` proves |
| LeV1.LeProtocolV1.BytesToReceive | src/pyglaze/device/protocols/le_v1.py:88-94 | three float32 arrays of n points: 12n bytes |
| LeV1.LeProtocolV1.Connect | src/pyglaze/device/protocols/le_v1.py:109-111 | holds the port the factory opened; a factory error is raised and the protocol stays as it was |
| LeV1.LeProtocolV1.Disconnect | src/pyglaze/device/protocols/le_v1.py:113-118 | closes the held port, if any, and drops it |
| LeV1.LeProtocolV1.EncodeAndSend | src/pyglaze/device/protocols/le_v1.py:223-228 | writes the encoded command, or fails when not connected |
| LeV1.LeProtocolV1.GetResponseOnce | src/pyglaze/device/protocols/le_v1.py:262-278 | one attempt, as `ResponseAttempt` |
| LeV1.LeProtocolV1.GetResponse | src/pyglaze/device/protocols/le_v1.py:259-278 | the retried response: at most three attempts |
| LeV1.LeProtocolV1.EncodeSendResponse | src/pyglaze/device/protocols/le_v1.py:216-221 | sends the command once and then reads the retried response |
| LeV1.LeProtocolV1.GetStatus | src/pyglaze/device/protocols/le_v1.py:157-170 | sends `H` and validates the reply as `StatusOf` |
| LeV1.LeProtocolV1.AwaitScanFinished | src/pyglaze/device/protocols/le_v1.py:250-257 | polls the status while it is `SCANNING`, as `AwaitOn` |
| LeV1.LeProtocolV1.ReadScanOnce | src/pyglaze/device/protocols/le_v1.py:283-303 | sends `R` and decodes one reply of 12n bytes |
| LeV1.LeProtocolV1.ReadScan | src/pyglaze/device/protocols/le_v1.py:280-303 | the retried scan read: at most five fetches |
| LeV1.LeProtocolV1.RawByteSendInts | src/pyglaze/device/protocols/le_v1.py:230-238 | writes the little-endian 16-bit packing; a value out of range fails and writes nothing |
| LeV1.LeProtocolV1.RawByteSendFloats | src/pyglaze/device/protocols/le_v1.py:240-248 | writes the float32 words back to back |
| LeV1.LeProtocolV1.WriteSettings | src/pyglaze/device/protocols/le_v1.py:120-130 | performs the settings exchange whose traffic `SettingsSent` describes |
| LeV1.LeProtocolV1.WriteList | src/pyglaze/device/protocols/le_v1.py:132-140 | performs the list exchange whose traffic `ListSent` describes |
| LeV1.LeProtocolV1.StartScan | src/pyglaze/device/protocols/le_v1.py:142-155 | performs the start sequence `StartUnfold` describes |
| LeV1.LeProtocolV1.FetchData | src/pyglaze/device/protocols/le_v1.py:172-178 | the retried scan read |
| LeV1.LeProtocolV1.GetSerialNumber | src/pyglaze/device/protocols/le_v1.py:180-184 | the fixed placeholder serial number, without any traffic |
| LeV1.LeProtocolV1.GetFirmwareVersion | src/pyglaze/device/protocols/le_v1.py:186-193 | sends `v` and returns the stripped line |
| LeV2.Header | src/pyglaze/device/protocols/le_v2.py:172-189 | a header is 8 bytes |
| LeV2.BuildHeader | src/pyglaze/device/protocols/le_v2.py:172-189 | the buffer filled field by field is the header exactly when size and instruction fit 16 bits, else the `struct` range error |
| LeV2.ParseHeader | src/pyglaze/device/protocols/le_v2.py:191-220 | a parsed header yields 16-bit size and instruction; a rejected one is a protocol error |
| LeV2.BadPrefixMessage | src/pyglaze/device/protocols/le_v2.py:202-204 | a wrong prefix is refused with "expected b'AB', got " and the `repr` of the two bytes received |
| LeV2.ParseBuiltHeader | src/pyglaze/device/protocols/le_v2.py:172-220 | parsing a built header gives back its size and instruction |
| LeV2.ParsedHeaderIsBuilt | src/pyglaze/device/protocols/le_v2.py:172-220 | every accepted header is exactly the one built from what it parses to |
| LeV2.ParseHeaderRejects | src/pyglaze/device/protocols/le_v2.py:200-214 | a header is rejected exactly when it is not 8 bytes, lacks `AB`, has a non-zero reserved byte, or has the wrong protocol version |
| LeV2.Frame | src/pyglaze/device/protocols/le_v2.py:222-235 | a message is sendable exactly when its payload size fits 16 bits; the header is written first, then the payload if there is one |
| LeV2.ReceiveOn | src/pyglaze/device/protocols/le_v2.py:262-287 | a received message carries a 16-bit instruction |
| LeV2.ReceivedMatchesHeader | src/pyglaze/device/protocols/le_v2.py:262-287 | a received message is never the error instruction, and its header announced exactly its payload size and instruction |
| LeV2.DeviceErrorIsRaised | src/pyglaze/device/protocols/le_v2.py:270-277 | a header with the error instruction raises a device error reading "Device error: ..." |
| LeV2.ShortHeaderIsComError | src/pyglaze/device/protocols/le_v2.py:263-265 | fewer than 8 header bytes is a device communication error |
| LeV2.ReceiveFrame | src/pyglaze/device/protocols/le_v2.py:228-287 | a framed message is received as exactly that payload and instruction, consuming exactly its frame |
| LeV2.PingOn | src/pyglaze/device/protocols/le_v2.py:330-348 | a failed ping is a device error reading "Device ping failed: ..." |
| LeV2.PingSucceedsIff | src/pyglaze/device/protocols/le_v2.py:330-348 | the ping succeeds exactly when a message arrives carrying the ping instruction |
| LeV2.TruncatedSplit | src/pyglaze/device/protocols/le_v2.py:542-566 | one count per interval, and a single count when there are no intervals |
| LeV2.TruncatedSplitSound | src/pyglaze/device/protocols/le_v2.py:542-566 | the counts add up to the requested points, none is negative, and all but the last are the truncated shares |
| LeV2.ScanningListLength | src/pyglaze/device/protocols/le_v2.py:116-132 | the scanning list has one point per configured point |
| LeV2.FetchSucceedsIff | src/pyglaze/device/protocols/le_v2.py:451-482 | a fetch succeeds exactly when two `MANAGER_DATA` replies of 4n bytes each arrive |
| LeV2.FetchedData | src/pyglaze/device/protocols/le_v2.py:451-482 | fetched times are the scanning list, the three arrays have n entries, and the cos and sin floats are exactly the payloads |
| LeV2.FetchOfReplies | src/pyglaze/device/protocols/le_v2.py:451-482 | two well-sized data replies decode to their words and consume exactly those replies |
| LeV2.FetchWellFormed | src/pyglaze/device/protocols/le_v2.py:451-482 | a device sending cos and sin frames is read as exactly those cos and sin arrays |
| LeV2.SerialNumberOn | src/pyglaze/device/protocols/le_v2.py:488-513 | a serial number comes from a `MEMORY_SEND` reply and has no trailing NUL |
| LeV2.StripPadding | src/pyglaze/device/protocols/le_v2.py:504-506 | `rstrip("\x00")` of text padded with NULs gives back text that does not end in NUL |
| LeV2.SerialNumberOfFrame | src/pyglaze/device/protocols/le_v2.py:488-513 | a `MEMORY_SEND` frame carrying a serial number padded with NULs yields exactly that serial number and consumes exactly that frame |
| LeV2.LeProtocolV2.constructor | src/pyglaze/device/protocols/le_v2.py:94-99 | a protocol for this configuration, not connected |
| LeV2.LeProtocolV2.PointsPerInterval | src/pyglaze/device/protocols/le_v2.py:542-566 | the loop computes `TruncatedSplit` |
| LeV2.LeProtocolV2.ScanningList | src/pyglaze/device/protocols/le_v2.py:116-132 | the sweep of the truncated split, whose length `ScanningListLength` proves |
| LeV2.LeProtocolV2.BytesToReceive | src/pyglaze/device/protocols/le_v2.py:134-140 | one float32 per point: 4n bytes |
| LeV2.LeProtocolV2.SendMessage | src/pyglaze/device/protocols/le_v2.py:222-235 | writes the frame and touches nothing else; fails without writing when not connected or the payload is too large |
| LeV2.LeProtocolV2.ReceiveMessage | src/pyglaze/device/protocols/le_v2.py:237-291 | receives as `ReceiveOn`, writes nothing, and puts back the caller's timeout |
| LeV2.LeProtocolV2.PingDevice | src/pyglaze/device/protocols/le_v2.py:330-348 | sends one empty ping frame and judges the reply as `PingOn` |
| LeV2.LeProtocolV2.Connect | src/pyglaze/device/protocols/le_v2.py:293-320 | keeps a held port; otherwise pings the opened port, keeping it when the ping succeeds and closing it and raising "Failed to connect to device: ..." when it does not |
| LeV2.LeProtocolV2.Disconnect | src/pyglaze/device/protocols/le_v2.py:322-328 | closes the held port, if any, and drops it |
| LeV2.LeProtocolV2.WriteSettings | src/pyglaze/device/protocols/le_v2.py:350-373 | succeeds exactly when connected with 16-bit integration periods, sending that one value; failures read "Failed to write settings: ..." |
| LeV2.LeProtocolV2.WriteList | src/pyglaze/device/protocols/le_v2.py:375-397 | succeeds exactly when connected and the float32 list fits one frame, sending that list; failures read "Failed to write scanning list: ..." |
| LeV2.LeProtocolV2.FetchData | src/pyglaze/device/protocols/le_v2.py:435-486 | sends one data request and returns `FetchOn`'s data or wraps its error in "Failed to fetch scan data: ..." |
| LeV2.LeProtocolV2.StartScan | src/pyglaze/device/protocols/le_v2.py:399-433 | sends the start call and a data request, then returns the fetched data or the wrapped fetch error |
| LeV2.LeProtocolV2.GetSerialNumber | src/pyglaze/device/protocols/le_v2.py:488-513 | sends one `MEMORY_SEND` request and returns `SerialNumberOn`'s text or wraps its error |
| LeV2.LeProtocolV2.GetStatus | src/pyglaze/device/protocols/le_v2.py:515-531 | `IDLE` exactly when a ping succeeds, `UNKNOWN` otherwise and when not connected |
| LeV2.LeProtocolV2.GetFirmwareVersion | src/pyglaze/device/protocols/le_v2.py:533-539 | the fixed MimOS identification string |
| Registry.ListRepr | src/pyglaze/device/protocols/__init__.py:104 | a printed list is bracketed, and is `[]` exactly when empty |
| Registry.ListReprSnoc | src/pyglaze/device/protocols/__init__.py:104 | each element is shown in single quotes, after a comma and a space unless it is the first |
| Registry.VersionAttribute | src/pyglaze/device/protocols/le_v2.py:101-104 | V1 classes report `v1` and V2 classes `v2` |
| Registry.LeEntries | src/pyglaze/device/protocols/__init__.py:96 | the `Le` versions, or none when `Le` is not registered |
| Registry.RegisteredSets | src/pyglaze/device/protocols/__init__.py:36-48 | registering sets the class for that device type and version and leaves every other entry as it was |
| Registry.RegisteredOrder | src/pyglaze/device/protocols/__init__.py:36-48 | registering keeps keys distinct and adds a new device type at the end |
| Registry.TrialOf | src/pyglaze/device/protocols/__init__.py:149-206 | a version is accepted exactly when connecting and, for classes that ping, verifying succeed; serial or OS errors abort negotiation, other errors skip the version |
| Registry.Protocol.constructor | src/pyglaze/device/protocols/__init__.py:168 | a protocol object of that class, not connected |
| Registry.Protocol.Connect | src/pyglaze/device/protocols/__init__.py:171 | connected exactly when the connection succeeded |
| Registry.Protocol.Disconnect | src/pyglaze/device/protocols/__init__.py:192-195 | not connected afterwards |
| Registry.Protocol.TryVersion | src/pyglaze/device/protocols/__init__.py:149-206 | returns a new protocol that is left connected exactly when the trial accepted it |
| Registry.Available | src/pyglaze/device/protocols/__init__.py:144 | the supported versions that are registered |
| Registry.NegotiateFrom | src/pyglaze/device/protocols/__init__.py:132-146 | a negotiated version is supported, registered and accepted by its trial |
| Registry.FirstDecides | src/pyglaze/device/protocols/__init__.py:132-138 | the first version not passed over decides: accepted is the answer, aborted is the error |
| Registry.AllPassedOver | src/pyglaze/device/protocols/__init__.py:143-146 | when every version is skipped, negotiation fails naming the available versions and the last error |
| Registry.NegotiatedIsFirstAccepted | src/pyglaze/device/protocols/__init__.py:132-138 | the negotiated version comes after only versions that were skipped |
| Registry.PrefersNewest | src/pyglaze/device/protocols/__init__.py:33 | V2 wins when it is accepted, and V1 when V2 is refused and V1 accepted |
| Registry.ChooseOn | src/pyglaze/device/protocols/__init__.py:51-109 | empty registry, unsupported configuration, missing `Le` entries and unknown versions each raise their error; a chosen version is registered |
| Registry.SupportedVersions | src/pyglaze/device/protocols/__init__.py:209-218 | the device types in registry order, each with its versions in registry order |
| Registry.ProtocolRegistry.constructor | src/pyglaze/device/protocols/__init__.py:25-30 | the registry starts as `Le` with `v1` and `v2` |
| Registry.ProtocolRegistry.Register | src/pyglaze/device/protocols/__init__.py:36-48 | the table becomes `Registered(old table, ...)` |
| Registry.ProtocolRegistry.NegotiateVersion | src/pyglaze/device/protocols/__init__.py:112-146 | the loop succeeds exactly when `Negotiate` does, with the same error, returning a new connected protocol of the negotiated class |
| Registry.ProtocolRegistry.GetProtocol | src/pyglaze/device/protocols/__init__.py:51-109 | succeeds exactly when `ChooseOn` does; an explicit version is returned unconnected and a negotiated one connected |
| Registry.ProtocolRegistry.DetectProtocolVersion | src/pyglaze/device/protocols/__init__.py:221-243 | the `protocol_version` of the negotiated class, or the negotiation error |
| MockDevice.EncodeDecoded | src/pyglaze/devtools/mock_device.py:156 | an ASCII command decodes to text that encodes back to it |
| MockDevice.DecodeInts | src/pyglaze/devtools/mock_device.py:199-204 | an even-length buffer decodes to half as many 16-bit values; an odd one is a `struct` error |
| MockDevice.DecodeIntsOfPacked | src/pyglaze/devtools/mock_device.py:199-204 | what V1 packs with `_raw_byte_send_ints` is decoded back |
| MockDevice.DecodeFloats | src/pyglaze/devtools/mock_device.py:206-211 | a buffer whose length is a multiple of 4 decodes to words that re-join to it; otherwise a `struct` error |
| MockDevice.DecodeFloatsOfPacked | src/pyglaze/devtools/mock_device.py:206-211 | what V1 packs with `_raw_byte_send_floats` is decoded back |
| MockDevice.ScanFinishedStep | src/pyglaze/devtools/mock_device.py:213-223 | an error is a `ValueError` and leaves the state as it was; otherwise only the scanning flags may be cleared |
| MockDevice.ScanFinishedIff | src/pyglaze/devtools/mock_device.py:213-223 | finished exactly when not scanning, or a started scan with points and integration periods whose time has elapsed; scanning stops exactly then |
| MockDevice.CommandOf | src/pyglaze/devtools/mock_device.py:158-174 | a message is a command exactly when it is one character |
| MockDevice.Scaled | src/pyglaze/devtools/mock_device.py:237 | the mock times are the scanning list scaled point by point |
| MockDevice.Samples | src/pyglaze/devtools/mock_device.py:238 | n random values |
| MockDevice.MockScan | src/pyglaze/devtools/mock_device.py:233-243 | a mock scan has one time, X and Y per list point, the times being the scaled list |
| MockDevice.ScanBytesStep | src/pyglaze/devtools/mock_device.py:225-243 | no list is a `ValueError`; otherwise the scan count rises by one, and an injected failure returns no bytes and is counted |
| MockDevice.ReadStep | src/pyglaze/devtools/mock_device.py:98-107 | idle or empty-response mocks return scan bytes, a serial-number request returns `M-9999`, anything else is not implemented |
| MockDevice.IdleCommandStates | src/pyglaze/devtools/mock_device.py:155-174 | `S`, `L` and `G` move an idle mock to waiting for settings, waiting for a list, and starting a scan |
| MockDevice.IdleQueryStates | src/pyglaze/devtools/mock_device.py:155-174 | `H` and `v` move an idle mock to answering status and firmware |
| MockDevice.IdleSerialAndFetch | src/pyglaze/devtools/mock_device.py:155-174 | `s` asks for the serial number, and `R` leaves the idle mock as it is |
| MockDevice.IdleRefusesOthers | src/pyglaze/devtools/mock_device.py:155-174 | an idle mock accepts exactly the seven commands, and a refused message changes nothing |
| MockDevice.ScanningAcceptsStatusAndFetch | src/pyglaze/devtools/mock_device.py:176-186 | while scanning only `H` and `R` are accepted, and `H` moves to answering status |
| MockDevice.SettingsStored | src/pyglaze/devtools/mock_device.py:188-193 | packed settings are stored field by field and acknowledged |
| MockDevice.ShortSettingsRefused | src/pyglaze/devtools/mock_device.py:188-193 | fewer than three values is an `IndexError` after the fields before it were stored |
| MockDevice.ListStored | src/pyglaze/devtools/mock_device.py:195-197 | a float list is stored as the scanning list and acknowledged |
| MockDevice.AcknowledgementsClean | src/pyglaze/devtools/mock_device.py:113-126 | every acknowledgement survives stripping and starts with `ACK` |
| MockDevice.AcknowledgingReplies | src/pyglaze/devtools/mock_device.py:113-129 | in each waiting state the mock's reply passes V1's acknowledgement check unchanged |
| MockDevice.StatusReplies | src/pyglaze/devtools/mock_device.py:130-136 | the status reply is `IDLE` exactly when the scan has finished, otherwise `SCANNING`, or an unchanged-state `ValueError` |
| MockDevice.StatusReplyStates | src/pyglaze/devtools/mock_device.py:130-136 | replying `IDLE` returns to idle and not scanning; `SCANNING` stays scanning |
| MockDevice.StatusRepliesAccepted | src/pyglaze/devtools/mock_device.py:130-136 | V1's status check accepts every status reply the mock gives |
| MockDevice.WriteKeepsConsistent | src/pyglaze/devtools/mock_device.py:81-96 | writing keeps the mock's fields consistent |
| MockDevice.ReadKeepsConsistent | src/pyglaze/devtools/mock_device.py:98-107 | reading keeps the mock's fields consistent |
| MockDevice.ReadUntilKeepsConsistent | src/pyglaze/devtools/mock_device.py:109-139 | reading a line keeps the mock's fields consistent |
| MockDevice.OnlySettingsCanBeMissing | src/pyglaze/devtools/mock_device.py:213-223 | in a consistent mock the only possible error is the unknown-scan-time `ValueError` |
| MockDevice.FailsOnlyFirstRead | src/pyglaze/devtools/mock_device.py:231-232 | the fail-first mock returns no bytes on the first scan only |
| MockDevice.FailsEveryRead | src/pyglaze/devtools/mock_device.py:231-232 | the always-failing mock returns no bytes every time and stays so |
| MockDevice.NeverFailsByDefault | src/pyglaze/devtools/mock_device.py:225-243 | a mock without injection always returns the full scan bytes |
| MockDevice.MockFactory | src/pyglaze/devtools/mock_device.py:257-279 | a mock is made exactly for an `Le` configuration naming a known mock port, and starts consistent, idle, with no scans and no list |
| MockDevice.FactorySettings | src/pyglaze/devtools/mock_device.py:257-268 | each mock port name sets exactly its failure injection and empty-response flag |
| MockDevice.UnknownPortRefused | src/pyglaze/devtools/mock_device.py:270-271 | an unknown port name raises a `ValueError` listing the valid names |
| MockDevice.BareReply | src/pyglaze/devtools/mock_device.py:113-136 | the mock's replies carry no newline, and V1 reads each as one reply |
| MockDevice.FirstScanFailureAbsorbed | tests/scanning/test_scanner.py:51-58 | with the fail-first mock, the first fetch yields no bytes and the second the full scan |
| MockDevice.PingHeaderRefused | src/pyglaze/devtools/mock_device.py:155-174 | a V2 ping header is not a V1 command and the mock refuses it unchanged |
| MockDevice.V2ConnectOverMock | src/pyglaze/device/protocols/le_v2.py:293-320 | a V2 connection attempt on a mock fails only with a device communication error |
| MockDevice.V2RefusedByMock | src/pyglaze/device/protocols/le_v2.py:293-320 | V2 cannot connect to the mock: its ping is refused as an unknown message |
| MockDevice.V1AcceptsMock | src/pyglaze/device/protocols/__init__.py:192-195 | V1's status check succeeds on an idle mock |
| MockDevice.NegotiationFallsBackToV1 | src/pyglaze/device/protocols/__init__.py:132-146 | negotiation on every mock but the empty-response one settles on `v1` |
| MockDevice.SilentAfterEmptyBurst | src/pyglaze/device/protocols/le_v1.py:259-278 | an empty burst then silence is the "no response" error |
| MockDevice.EmptyMockAbortsNegotiation | src/pyglaze/devtools/mock_device.py:111-112 | the empty-response mock makes V1's status check, and so negotiation, fail with "no response" |
| MockDevice.LeMockDevice.constructor | src/pyglaze/devtools/mock_device.py:58-79 | a fresh mock with the given injection settings |
| MockDevice.LeMockDevice.ScanHasFinished | src/pyglaze/devtools/mock_device.py:213-223 | behaves as `ScanFinishedStep` |
| MockDevice.LeMockDevice.HandleIdle | src/pyglaze/devtools/mock_device.py:155-174 | behaves as the idle transition |
| MockDevice.LeMockDevice.HandleScanning | src/pyglaze/devtools/mock_device.py:176-186 | behaves as the scanning transition |
| MockDevice.LeMockDevice.HandleWaitingForSettings | src/pyglaze/devtools/mock_device.py:188-193 | behaves as the settings transition |
| MockDevice.LeMockDevice.HandleWaitingForList | src/pyglaze/devtools/mock_device.py:195-197 | behaves as the list transition |
| MockDevice.LeMockDevice.Write | src/pyglaze/devtools/mock_device.py:81-96 | behaves as `WriteStep` |
| MockDevice.LeMockDevice.CreateScanBytes | src/pyglaze/devtools/mock_device.py:225-243 | behaves as `ScanBytesStep` |
| MockDevice.LeMockDevice.Read | src/pyglaze/devtools/mock_device.py:98-107 | behaves as `ReadStep` |
| MockDevice.LeMockDevice.AnswerStatus | src/pyglaze/devtools/mock_device.py:130-136 | behaves as the status reply |
| MockDevice.LeMockDevice.ReadUntil | src/pyglaze/devtools/mock_device.py:109-139 | behaves as `ReadUntilStep` |
| MockDevice.LeMockDevice.Close | src/pyglaze/devtools/mock_device.py:141-142 | closing leaves the mock's state as it was |
| MockProtocol.EqualCounts | src/pyglaze/devtools/mock_device.py:559 | every interval gets the same count `c`, with `k * c <= n_points < k * (c + 1)` for `k` intervals, which is `n_points // k` |
| MockProtocol.MockSweepShape | src/pyglaze/devtools/mock_device.py:541-569 | the mock's list has k*(n // k) points, between n-k+1 and n, each inside its interval |
| MockProtocol.CalculateScanningList | src/pyglaze/devtools/mock_device.py:541-569 | the loop builds the equal-count sweep |
| MockProtocol.StatusFromIdle | src/pyglaze/devtools/mock_device.py:434-448 | an idle mock answers the status query with `IDLE` and stays idle |
| MockProtocol.StatusWhileScanning | src/pyglaze/devtools/mock_device.py:434-448 | a scanning mock answers `IDLE` exactly when the scan has finished, else `SCANNING` or the unknown-scan-time error |
| MockProtocol.SettingsReachMock | src/pyglaze/devtools/mock_device.py:323-358 | `write_settings` stores points, integration periods and EMA in the mock and returns its acknowledgement |
| MockProtocol.ListReachesMock | src/pyglaze/devtools/mock_device.py:360-392 | `write_list` stores the words in the mock and returns its acknowledgement |
| MockProtocol.AckReplyRead | src/pyglaze/devtools/mock_device.py:113-122 | in each acknowledging state the stripped reply is the acknowledgement, and the mock moves on |
| MockProtocol.FetchFromMock | src/pyglaze/devtools/mock_device.py:450-487 | a fetch counts one scan and returns the mock scan, or the `struct` error on an injected failure |
| MockProtocol.ListThenFetch | src/pyglaze/devtools/mock_device.py:360-487 | after writing a list, a fetch returns a scan whose times are that list scaled |
| MockProtocol.MockProtocolV1.constructor | src/pyglaze/devtools/mock_device.py:288-296 | not connected, no list |
| MockProtocol.MockProtocolV1.Connect | src/pyglaze/devtools/mock_device.py:307-315 | keeps a connected mock; otherwise makes a fresh one with the factory, or raises the factory's error |
| MockProtocol.MockProtocolV1.Disconnect | src/pyglaze/devtools/mock_device.py:317-321 | drops the mock |
| MockProtocol.MockProtocolV1.GetStatus | src/pyglaze/devtools/mock_device.py:434-448 | asks the mock with `H`, or fails when not connected |
| MockProtocol.MockProtocolV1.GetFirmwareVersion | src/pyglaze/devtools/mock_device.py:505-519 | asks the mock with `v`, or fails when not connected |
| MockProtocol.MockProtocolV1.Ask | src/pyglaze/devtools/mock_device.py:447-448 | writes one command and reads the stripped line |
| MockProtocol.MockProtocolV1.WriteSettings | src/pyglaze/devtools/mock_device.py:323-358 | not connected and non-`Le` configurations fail; otherwise the settings exchange |
| MockProtocol.MockProtocolV1.WriteList | src/pyglaze/devtools/mock_device.py:360-392 | not connected and non-`Le` configurations fail; otherwise the list exchange, remembering the list |
| MockProtocol.MockProtocolV1.FetchData | src/pyglaze/devtools/mock_device.py:450-487 | fails without a connection or a list; otherwise one fetch from the mock |
| MockProtocol.MockProtocolV1.GetSerialNumber | src/pyglaze/devtools/mock_device.py:489-503 | asks with `s` and reads six bytes, or fails when not connected |
| AsyncScanner.Dead | pyglaze/scanning/_asyncscanner.py:124-127 | a death report is neither alive nor healthy and carries its error |
| AsyncScanner.Pushed | pyglaze/scanning/_asyncscanner.py:130-135 | pushing keeps the queue bounded with the new scan last, dropping one only when full |
| AsyncScanner.PushedKeeps | pyglaze/scanning/_asyncscanner.py:130-135 | one push keeps the newest `maxsize` of queue plus scan |
| AsyncScanner.PushesKeepNewest | pyglaze/scanning/_asyncscanner.py:121-135 | any run of pushes keeps exactly the newest `maxsize` scans |
| AsyncScanner.PushAll | pyglaze/scanning/_asyncscanner.py:130-135 | the queue stays bounded |
| AsyncScanner.SharedQueue.constructor | pyglaze/scanning/_asyncscanner.py:49 | an empty queue of that bound |
| AsyncScanner.SharedQueue.PutNowait | pyglaze/scanning/_asyncscanner.py:131 | a full queue raises `Full` unchanged; otherwise the scan is appended |
| AsyncScanner.SharedQueue.GetNowait | pyglaze/scanning/_asyncscanner.py:134 | an empty queue raises `Empty`; otherwise the oldest scan is removed and returned |
| AsyncScanner.HealthPipe.constructor | pyglaze/scanning/_asyncscanner.py:51 | the pipe holds the reports that have arrived |
| AsyncScanner.HealthPipe.Send | pyglaze/scanning/_asyncscanner.py:116-118 | appends a report |
| AsyncScanner.HealthPipe.Poll | pyglaze/scanning/_asyncscanner.py:59 | ready exactly when a report is waiting |
| AsyncScanner.HealthPipe.Recv | pyglaze/scanning/_asyncscanner.py:64 | takes the oldest report |
| AsyncScanner.ScanLoop | pyglaze/scanning/_asyncscanner.py:121-135 | the loop keeps the queue bounded |
| AsyncScanner.WorkerRun | pyglaze/scanning/_asyncscanner.py:107-146 | a worker only appends to the pipe, at most two reports |
| AsyncScanner.LoopKeepsNewest | pyglaze/scanning/_asyncscanner.py:121-135 | scans that all succeed until the stop signal leave the newest `maxsize` in the queue |
| AsyncScanner.LoopStopsAtFailure | pyglaze/scanning/_asyncscanner.py:121-128 | the first failing scan ends the loop, reported when serial or timeout, escaping otherwise |
| AsyncScanner.WorkerStartupFails | pyglaze/scanning/_asyncscanner.py:114-119 | a serial or timeout failure constructing the scanner is reported dead; any other escapes unreported |
| AsyncScanner.WorkerStopsCleanly | pyglaze/scanning/_asyncscanner.py:114-146 | a healthy worker reports alive once and leaves an empty queue |
| AsyncScanner.WorkerReportsFatalScan | pyglaze/scanning/_asyncscanner.py:121-128 | a serial or timeout scan failure is reported after the alive report, and the queue is drained |
| AsyncScanner.PushFreshest | pyglaze/scanning/_asyncscanner.py:130-135 | the queue becomes `Pushed` |
| AsyncScanner.ScanUntilStop | pyglaze/scanning/_asyncscanner.py:121-135 | the loop leaves the queue `ScanLoop` says, writing a death report only for a reported failure |
| AsyncScanner.Drain | pyglaze/scanning/_asyncscanner.py:137-146 | the queue ends empty |
| AsyncScanner.RunScanner | pyglaze/scanning/_asyncscanner.py:107-146 | the worker's queue, pipe and outcome are those of `WorkerRun` |
| AsyncScanner.StartOutcome | pyglaze/scanning/_asyncscanner.py:59-73 | no report times out; scanning exactly when the first report is alive and healthy; raises exactly when it carries an error |
| AsyncScanner.StartFollowsWorker | tests/scanning/test_asyncscanner.py:41-56 | a good worker starts scanning, a serial or timeout startup failure is re-raised, and any other makes `start_scan` time out |
| AsyncScanner.GetScanStep | pyglaze/scanning/_asyncscanner.py:95-105 | a scan is returned exactly when the queue has one, oldest first; scanning is never switched on |
| AsyncScanner.DeadReportStopsHandle | pyglaze/scanning/_asyncscanner.py:99-104 | on an empty queue a death report stops scanning and raises its error |
| AsyncScanner.SkipFrom | pyglaze/scanning/_asyncscanner.py:85-86 | the scan found is not older than the call |
| AsyncScanner.SkipStale | pyglaze/scanning/_asyncscanner.py:83-86 | the scan found is not older than the call |
| AsyncScanner.TakeScans | pyglaze/scanning/_asyncscanner.py:88 | returns exactly n waveforms |
| AsyncScanner.GetScansOf | pyglaze/scanning/_asyncscanner.py:81-88 | returns exactly n waveforms |
| AsyncScanner.WaveformsOf | pyglaze/scanning/_asyncscanner.py:88 | the waveforms of the scans, in order |
| AsyncScanner.TakeFromQueue | pyglaze/scanning/_asyncscanner.py:88 | with enough scans queued, the next n are returned and removed |
| AsyncScanner.SkipInQueue | pyglaze/scanning/_asyncscanner.py:83-86 | the first scan not older than the call is found, and it and everything before it are removed |
| AsyncScanner.GetScansFromQueue | pyglaze/scanning/_asyncscanner.py:81-88 | `get_scans` returns the n waveforms after the first fresh scan |
| AsyncScanner.AsyncScanner.constructor | pyglaze/scanning/_asyncscanner.py:32-35 | not scanning, nothing started |
| AsyncScanner.AsyncScanner.StartScan | pyglaze/scanning/_asyncscanner.py:42-73 | a new empty queue and pipe; outcome and scanning flag per `StartOutcome`; stops the worker when not scanning |
| AsyncScanner.AsyncScanner.StopScan | pyglaze/scanning/_asyncscanner.py:75-79 | signals stop, closes the worker, not scanning |
| AsyncScanner.AsyncScanner.GetScan | pyglaze/scanning/_asyncscanner.py:95-105 | behaves as `GetScanStep` |
| AsyncScanner.AsyncScanner.GetScans | pyglaze/scanning/_asyncscanner.py:81-88 | behaves as `GetScansOf` |
| Markdown.Split | tests/docs/markdownparser.py:32 | `split("\n")` yields at least one piece, none containing a newline |
| Markdown.JoinSplit | tests/docs/markdownparser.py:19-21 | joining the split lines gives the text back |
| Markdown.SplitJoin | tests/docs/markdownparser.py:19-21 | splitting joined newline-free lines gives the lines back |
| Markdown.BlockTextIsJoin | tests/docs/markdownparser.py:45 | a block collected line by line is the lines joined, with a final newline |
| Markdown.RemoveSpaces | tests/docs/markdownparser.py:20 | removing spaces leaves no space |
| Markdown.PySlice | tests/docs/markdownparser.py:20 | a Python slice is the range when it fits and never longer |
| Markdown.PythonBody | tests/docs/markdownparser.py:18-22 | a block whose fence is not tagged `py` contributes nothing |
| Markdown.CollectedBlock | tests/docs/markdownparser.py:18-22 | a collected block yields the dedented body exactly when its fence is tagged `py` |
| Markdown.FenceTag | tests/docs/markdownparser.py:20 | a fence is a Python fence exactly when its tag, spaces removed, starts with `py` |
| Markdown.Step | tests/docs/markdownparser.py:33-45 | a line adds a block exactly when it closes a fence, and earlier blocks stay |
| Markdown.ScanAppend | tests/docs/markdownparser.py:33-45 | scanning two pieces of text is scanning one then the other |
| Markdown.ScanCountsFences | tests/docs/markdownparser.py:37-45 | the scan is inside a block exactly after an odd number of fences, and closes one block per fence pair |
| Markdown.BodyCollected | tests/docs/markdownparser.py:44-45 | inside a block, non-fence lines are appended to it |
| Markdown.TextSkipped | tests/docs/markdownparser.py:37-45 | outside a block, non-fence lines are ignored |
| Markdown.FencedBlock | tests/docs/markdownparser.py:37-45 | a fence, a body and a fence add exactly one block: opening fence plus body |
| Markdown.OpenFence | tests/docs/markdownparser.py:37-38 | a fence outside a block opens one holding the fence line |
| Markdown.CloseFence | tests/docs/markdownparser.py:39-42 | a fence inside a block closes it and records it |
| Markdown.UnclosedDropped | tests/docs/markdownparser.py:33-47 | a block never closed is not recorded |
| Markdown.NonEmpty | tests/docs/markdownparser.py:47 | only non-empty blocks are kept, each from the input; the result is empty exactly when every block is empty, and is the input when none is |
| Markdown.NonEmptyCounts | tests/docs/markdownparser.py:47 | every non-empty block is kept as many times as it occurs, and no empty one |
| Markdown.NonEmptyAppend | tests/docs/markdownparser.py:47 | filtering keeps the order: the kept blocks of two runs are those of the first, then those of the second |
| Markdown.Bodies | tests/docs/markdownparser.py:40 | each recorded block is turned into its Python body |
| Markdown.LinesCodeblocks | tests/docs/markdownparser.py:33-47 | the code blocks of the lines are non-empty, and there are none exactly when no closed block has a non-empty Python body |
| Markdown.Codeblocks | tests/docs/markdownparser.py:25-47 | every extracted code block is non-empty, and there are none exactly when the text has no closed Python block with a non-empty body |
| Markdown.CodeblocksInOrder | tests/docs/markdownparser.py:33-47 | document order: cut where no block is open, the code blocks are those of the first part, then those of the second |
| Markdown.FencedCodeblock | tests/docs/markdownparser.py:33-47 | text and one fenced block give its dedented body exactly when the fence is tagged `py` and the body is not empty, and nothing otherwise |
| Markdown.NoClosedBlock | tests/docs/markdownparser.py:33-47 | lines with at most one fence give no code block |
| Markdown.BlocksPerFencePair | tests/docs/markdownparser.py:25-47 | there are at most as many code blocks as fence pairs |
| Markdown.ExtractCodeblocks | tests/docs/markdownparser.py:25-47 | the loop extracts `Codeblocks` |
| Markdown.AllCode | tests/docs/markdownparser.py:50-55 | the combined code is empty exactly when there are no blocks |
| Markdown.AllCodeIsJoin | tests/docs/markdownparser.py:50-55 | the combined code is the blocks each preceded by a newline |
| Markdown.ExtractPythonCode | tests/docs/markdownparser.py:50-55 | the loop builds `AllCode` and is empty exactly when no block was found |
| Markdown.CheckMdFile | tests/docs/markdownparser.py:5-15 | code is executed exactly when some closed Python block has a non-empty body, and it is all the code blocks joined |

## Left out

- Polar conversion (`_convert_to_r_angle`, `np.sqrt` and `np.arctan2` in both protocols' and the mock's `start_scan`) is floating point. Scans are kept as their raw time, X and Y or cos and sin words.
- Float values are not computed. A `float32` word is an opaque 4-byte value produced by a conversion function passed in. A `linspace` point is described by its interval, index and count, not by its value.
- Interval lengths are natural numbers, and shares are exact integer divisions. The source divides Python floats.
- `LeV1.LargestRemainder`: the number of extra points is the exact remainder sum divided by the total. It does not model `int(0.5 + np.sum(remainders))` rounding float error.
- `LeV1.Order`: equal remainders are ordered later-interval-first, as a flipped stable sort would order them. `np.argsort`'s default sort is not stable, so the source's tie order is unspecified.
- `Bytes.Decode`: one character per byte. It stands for `decode(errors="replace")`, which never raises. UTF-8 multi-byte characters and replacement characters are not modelled.
- `Bytes.Utf8`: strict decoding (V1's `_get_response` and `get_firmware_version`, and the mock) is modelled on the ASCII range. Any byte from 0x80 up raises the `ValueError`, including valid multi-byte UTF-8 that Python would decode. The error message keeps only its fixed start, without the byte and its position.
- `LeV2.SerialNumberOn`: the payload is decoded one character per byte. Replacement characters for invalid UTF-8 are not modelled.
- `Bytes.Strip`: whitespace is the ASCII whitespace set. Unicode whitespace is not modelled.
- `Registry.ListRepr`: the brackets, quotes and comma separation are modelled. Python's choice of double quotes or escapes for a string that holds a quote is not.
- Sleeps and backoff delays of `_BackoffRetry` are timing only and are not modelled. The decorator is modelled by its observable retry behaviour, as its tests state it.
- Opening a real port (`serial.Serial(...)`) is a parameter: `Connect` takes the opened port or the error opening it raised.
- `LeV1.LeProtocolV1.Connect` does not close a port it already holds before opening a new one.
- `LeV2.LeProtocolV2.ReceiveMessage`: the temporary 150 ms timeout is set during the read. The restored value is what `RestoredTimeout` states.
- Time, randomness and logging are parameters or left out:
  - the mock's scan clock is an `elapsed` flag;
  - its random samples and time scaling come from an `Oracle`;
  - `datetime.now()` in `get_scans` is a `callTime` parameter.
- `instant_response` of the mock is stored and otherwise unused.
- Feature queries are constant tables and are not modelled:
  - `supports_feature` of V1, V2 and `MockProtocolV1`;
  - `scanning_points`, `serial_number_bytes`, and `protocol_version` beyond `Registry.VersionAttribute`.
- `MockProtocolV1.start_scan` (mock_device.py:394-432) is not modelled. It is a polling loop over the mock followed by polar conversion.
- `_get_status` of V1 (le_v1.py:314-316) is not modelled separately. It is the same exchange as `GetStatus` without validation.
- `MockDevice.V2ConnectOverMock`: the bursts V2 would read back are a parameter, because V2's framing never reaches a mock reply after the refused ping.
- Negotiation per version is a `Probe`, the outcome of connecting and verifying, passed in. The actual connect and ping code of each version is modelled in `LeV1` and `LeV2`.
- The abstract `Protocol` interface in `src/pyglaze/device/protocol.py` is not part of this model.
- The scanner runs in a separate process. The model replaces this with sequential events:
  - the worker's run is one function over a list of scan outcomes;
  - the stop signal is the end of that list;
  - the pipe is a list of reports;
  - `Process`, `Event`, `join` and `close` are not modelled.
- `_SCAN_TIMEOUT` and the blocking `get(timeout=...)` are modelled as "the queue is empty now". The `startup_timeout` poll is modelled as "a report has arrived".
- `get_next` averages waveforms, which is floating point, and is not modelled.
- `AsyncScanner.AsyncScanner.GetScan`: requires that `start_scan` ran first. Without it the source fails with `AttributeError`, which is not modelled.
- `textwrap.dedent` is a function parameter of the Markdown extractor and is not modelled itself.
- `exec` of the extracted code is not modelled. `CheckMdFile` returns the code it would execute.
