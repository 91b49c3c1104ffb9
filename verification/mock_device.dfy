/** The mock Le device behind the "mock_device..." ports (`LeMockDevice`):
    a state machine that answers V1's command bytes the way the lock-in
    firmware does, with a counter that makes chosen scan reads come back
    empty; the factory that builds it from a port name; and
    `MockProtocolV1`, a protocol object that drives the mock directly.
    The clock and the random samples are oracles: `elapsed` answers whether
    a running scan's duration has passed, an `Oracle` supplies the float32
    words of the mock's scan values. */
module MockDevice {
  import opened Errors
  import opened Bytes
  import opened Configuration
  import opened SerialPort
  import opened Retry
  import LeV1
  import LeV2
  import Registry

  // ---------------------------------------------------------------------
  // State

  /** `_LeMockState`. */
  datatype MockState =
    | Idle
    | WaitingForSettings
    | WaitingForList
    | ReceivedSettings
    | ReceivedList
    | ReceivedStatusRequest
    | ReceivedSerialNumberRequest
    | ReceivedFirmwareVersionRequest
    | StartingScan
    | Scanning

  /** How a state prints inside "Unknown state: ..." messages. */
  function StateName(s: MockState): string
  {
    "_LeMockState." +
    match s
    case Idle => "IDLE"
    case WaitingForSettings => "WAITING_FOR_SETTINGS"
    case WaitingForList => "WAITING_FOR_LIST"
    case ReceivedSettings => "RECEIVED_SETTINGS"
    case ReceivedList => "RECEIVED_LIST"
    case ReceivedStatusRequest => "RECEIVED_STATUS_REQUEST"
    case ReceivedSerialNumberRequest => "RECEIVED_SERIAL_NUMBER_REQUEST"
    case ReceivedFirmwareVersionRequest => "RECEIVED_FIRMWARE_VERSION_REQUEST"
    case StartingScan => "STARTING_SCAN"
    case Scanning => "SCANNING"
  }

  /** Every field of a `LeMockDevice`. `failAfter` and `failsWanted` are
      `None` for the default `np.inf`; `scanStarted` says whether
      `_scan_start_time` is set (its value lives behind the clock oracle). */
  datatype Mock = Mock(
    failAfter: Option<nat>,
    failsWanted: Option<nat>,
    nFailures: nat,
    nScans: nat,
    state: MockState,
    isScanning: bool,
    nScanningPoints: Option<nat>,
    integrationPeriods: Option<nat>,
    useEma: Option<bool>,
    scanningList: Option<seq<Word>>,
    scanStarted: bool,
    emptyResponses: bool,
    instantResponse: bool)

  /** A mock as `__init__` leaves it. */
  function Fresh(failAfter: Option<nat>, failsWanted: Option<nat>, emptyResponses: bool, instantResponse: bool): Mock
  {
    Mock(failAfter, failsWanted, 0, 0, Idle, false, None, None, None, None, false, emptyResponses, instantResponse)
  }

  /** What a scan read's values are made of: the float32 form of each
      list entry times 100e-12, and the `k`-th random sample of the read. */
  datatype Oracle = Oracle(scale: Word -> Word, sample: nat -> Word)

  const ReadyForSettings: Ascii := "ACK: Ready to receive settings."
  const SettingsReceived: Ascii := "ACK: Settings received."
  const ReadyForList: Ascii := "ACK: Ready to receive list."
  const ListReceived: Ascii := "ACK: List received."
  const ScanStarted: Ascii := "ACK: Scan started."
  const MockFirmware: Ascii := "v0.1.0"
  const MockSerialNumber: Ascii := "M-9999"

  const StartTimeUnknown: string := "Scan start time is None"
  const ScanTimeUnknown: string := "Cannot calculate scanning time when n_scanning_points or integration_periods is None"
  const NoScanningList: string := "Scanning list is None"
  const ListIndex: string := "list index out of range"

  /** The serial-number request, which V1 never sends. */
  const SerialNumberBytes: ByteString := Encode("s")

  /** Python truthiness of an optional count: set and non-zero. */
  predicate Truthy(x: Option<nat>)
  {
    x.Some? && x.value != 0
  }

  /** The mock's own bookkeeping holds together: only a started scan runs,
      a running scan is in SCANNING or answering a status request, SCANNING
      means a scan runs, and STARTING_SCAN has its start time. */
  predicate Consistent(m: Mock)
  {
    (m.isScanning ==> m.scanStarted && (m.state == Scanning || m.state == ReceivedStatusRequest))
    && (m.state == Scanning ==> m.isScanning)
    && (m.state == StartingScan ==> m.scanStarted)
  }

  // ---------------------------------------------------------------------
  // Decoding what is written

  /** An ASCII message decodes to the text that encodes back to it. */
  lemma EncodeDecoded(bs: ByteString)
    requires IsAscii(bs)
    ensures IsText(Decode(bs)) && Encode(Decode(bs)) == bs
  {
  }

  /** `_decode_ints`: every two bytes as a little-endian uint16; an odd
      byte count makes `struct.unpack` fail. */
  function DecodeInts(bs: ByteString): (r: Result<seq<int>>)
    ensures r.Ok? <==> |bs| % 2 == 0
    ensures r.Ok? ==> |r.value| == |bs| / 2 && AllU16(r.value)
    ensures r.Err? ==> r.error.StructError?
  {
    if |bs| % 2 != 0 then Err(StructError("unpack requires a buffer of 2 bytes"))
    else Ok(UnpackLE16(bs))
  }

  /** `_decode_ints` inverts `struct.pack("<H...")`. */
  lemma DecodeIntsOfPacked(xs: seq<int>)
    requires AllU16(xs)
    ensures DecodeInts(PackLE16(xs)) == Ok(xs)
  {
    UnpackPackLE16(xs);
  }

  /** `_decode_floats`: every four bytes as a float32; a byte count that is
      not a multiple of four makes `struct.unpack` fail. */
  function DecodeFloats(bs: ByteString): (r: Result<seq<Word>>)
    ensures r.Ok? <==> |bs| % 4 == 0
    ensures r.Ok? ==> Flatten(r.value) == bs
    ensures r.Err? ==> r.error.StructError?
  {
    if |bs| % 4 != 0 then Err(StructError("unpack requires a buffer of 4 bytes"))
    else
      FlattenWords(bs);
      Ok(Words(bs))
  }

  /** `_decode_floats` inverts `struct.pack("<f...")`. */
  lemma DecodeFloatsOfPacked(ws: seq<Word>)
    ensures DecodeFloats(Flatten(ws)) == Ok(ws)
  {
    WordsFlatten(ws);
  }

  // ---------------------------------------------------------------------
  // One step of the mock, as a function of its state

  /** `_scan_has_finished`: a scan that is not running is finished;
      otherwise the start time and both settings must be known, and the
      scan ends once its duration has `elapsed`. A fault changes nothing;
      a finished scan forgets its start time. */
  function ScanFinishedStep(m: Mock, elapsed: bool): (r: (Result<bool>, Mock))
    ensures r.0.Err? ==> r.0.error.ValueError? && r.1 == m
    ensures r.1 == m || r.1 == m.(isScanning := false, scanStarted := false)
  {
    if !m.isScanning then (Ok(true), m)
    else if !m.scanStarted then (Err(ValueError(StartTimeUnknown)), m)
    else if !Truthy(m.nScanningPoints) || !Truthy(m.integrationPeriods) then (Err(ValueError(ScanTimeUnknown)), m)
    else if elapsed then (Ok(true), m.(isScanning := false, scanStarted := false))
    else (Ok(false), m)
  }

  /** A scan is over exactly when it was not running or its settings are
      known and its time has elapsed; afterwards a scan runs exactly when
      the check did not report it finished. */
  lemma ScanFinishedIff(m: Mock, elapsed: bool)
    ensures var r := ScanFinishedStep(m, elapsed);
      (r.0 == Ok(true) <==> !m.isScanning || (m.scanStarted && Truthy(m.nScanningPoints) && Truthy(m.integrationPeriods) && elapsed))
      && (!r.1.isScanning <==> r.0 == Ok(true))
  {
  }

  /** The one-character command a message spells, if it is one. */
  function CommandOf(msg: string): (c: Option<char>)
    ensures c.Some? <==> |msg| == 1
    ensures c.Some? ==> msg == [c.value]
  {
    if |msg| == 1 then Some(msg[0]) else None
  }

  /** The state each command other than "R" leads to from IDLE. */
  function IdleTarget(msg: string): Option<MockState>
  {
    match CommandOf(msg)
    case Some('S') => Some(WaitingForSettings)
    case Some('L') => Some(WaitingForList)
    case Some('G') => Some(StartingScan)
    case Some('H') => Some(ReceivedStatusRequest)
    case Some('s') => Some(ReceivedSerialNumberRequest)
    case Some('v') => Some(ReceivedFirmwareVersionRequest)
    case _ => None
  }

  /** `_handle_idle`: each command moves to its fixed state, "G" also
      noting the start time; "R" only checks whether a scan has finished. */
  function IdleStep(m: Mock, input: ByteString, elapsed: bool): (Result<()>, Mock)
  {
    match Utf8(input)
    case Err(e) => (Err(e), m)
    case Ok(msg) =>
      if msg == "R" then
        var (finished, next) := ScanFinishedStep(m, elapsed);
        (if finished.Err? then Err(finished.error) else Ok(()), next)
      else
        match IdleTarget(msg)
        case None => (Err(NotImplementedError("Unknown message: " + msg)), m)
        case Some(target) => (Ok(()), m.(state := target, scanStarted := m.scanStarted || target == StartingScan))
  }

  /** `_handle_scanning`: a status request, or a fetch that returns to
      IDLE once the scan has finished; nothing else. */
  function ScanningStep(m: Mock, input: ByteString, elapsed: bool): (Result<()>, Mock)
  {
    match Utf8(input)
    case Err(e) => (Err(e), m)
    case Ok(msg) =>
      if msg == "H" then (Ok(()), m.(state := ReceivedStatusRequest))
      else if msg == "R" then
        var (finished, next) := ScanFinishedStep(m, elapsed);
        if finished.Err? then (Err(finished.error), next)
        else if finished.value then (Ok(()), next.(state := Idle))
        else (Ok(()), next)
      else (Err(NotImplementedError("")), m)
  }

  /** `_handle_waiting_for_settings`: the three values are stored one by
      one, so a message with fewer than three leaves the first ones stored
      when the missing one is indexed. */
  function SettingsStep(m: Mock, input: ByteString): (Result<()>, Mock)
  {
    match DecodeInts(input)
    case Err(e) => (Err(e), m)
    case Ok(ints) =>
      if |ints| == 0 then (Err(IndexError(ListIndex)), m)
      else if |ints| == 1 then (Err(IndexError(ListIndex)), m.(nScanningPoints := Some(ints[0])))
      else if |ints| == 2 then
        (Err(IndexError(ListIndex)), m.(nScanningPoints := Some(ints[0]), integrationPeriods := Some(ints[1])))
      else
        (Ok(()), m.(nScanningPoints := Some(ints[0]), integrationPeriods := Some(ints[1]),
                   useEma := Some(ints[2] != 0), state := ReceivedSettings))
  }

  /** `_handle_waiting_for_list`. */
  function ListStep(m: Mock, input: ByteString): (Result<()>, Mock)
  {
    match DecodeFloats(input)
    case Err(e) => (Err(e), m)
    case Ok(list) => (Ok(()), m.(scanningList := Some(list), state := ReceivedList))
  }

  /** `write`: accepted only while waiting for settings or a list, in IDLE
      and in SCANNING. */
  function WriteStep(m: Mock, input: ByteString, elapsed: bool): (Result<()>, Mock)
  {
    match m.state
    case WaitingForSettings => SettingsStep(m, input)
    case WaitingForList => ListStep(m, input)
    case Idle => IdleStep(m, input, elapsed)
    case Scanning => ScanningStep(m, input, elapsed)
    case _ => (Err(NotImplementedError("")), m)
  }

  /** Whether the read counted as number `count` is one that fails. */
  predicate Injects(count: nat, m: Mock)
  {
    (m.failAfter.Some? && count > m.failAfter.value)
    && (m.failsWanted.None? || m.nFailures < m.failsWanted.value)
  }

  /** Each list entry as the mock's time value. */
  function Scaled(list: seq<Word>, o: Oracle): (r: seq<Word>)
    ensures |r| == |list|
    ensures forall i :: 0 <= i < |list| ==> r[i] == o.scale(list[i])
  {
    if list == [] then [] else [o.scale(list[0])] + Scaled(list[1..], o)
  }

  /** Samples number `from` to `from + n - 1` of a read. */
  function Samples(o: Oracle, from: nat, n: nat): (r: seq<Word>)
    ensures |r| == n
    ensures forall i :: 0 <= i < n ==> r[i] == o.sample(from + i)
    decreases n
  {
    if n == 0 then [] else [o.sample(from)] + Samples(o, from + 1, n - 1)
  }

  /** The values a successful scan read packs: the scaled list as times,
      then `2 n` samples, which a reader splits into X and Y. */
  function MockScan(list: seq<Word>, o: Oracle): (t: LeV1.ScanTriple)
    ensures LeV1.HasPoints(t, |list|)
    ensures forall i :: 0 <= i < |list| ==> t.times[i] == o.scale(list[i])
  {
    var n := |list|;
    LeV1.ScanTriple(
      Scaled(list, o),
      Samples(o, 0, n),
      Samples(o, n, n))
  }

  /** `_create_scan_bytes`: each read is counted; it comes back empty, and
      is counted as a failure, exactly when its number exceeds `failAfter`
      while fewer than `failsWanted` failures have happened. Otherwise it
      carries three float32 values per list entry. Nothing else changes. */
  function ScanBytesStep(m: Mock, o: Oracle): (r: (Result<ByteString>, Mock))
    ensures m.scanningList.None? ==> r == (Err(ValueError(NoScanningList)), m)
    ensures m.scanningList.Some? ==> r.0.Ok? && r.1.nScans == m.nScans + 1
    ensures m.scanningList.Some? ==> (r.1.nFailures == m.nFailures + 1 <==> Injects(m.nScans + 1, m))
    ensures m.scanningList.Some? && Injects(m.nScans + 1, m) ==> r.0.value == []
    ensures m.scanningList.Some? && !Injects(m.nScans + 1, m) ==>
      r.1.nFailures == m.nFailures && |r.0.value| == 12 * |m.scanningList.value|
    ensures r.1 == m.(nScans := r.1.nScans, nFailures := r.1.nFailures)
  {
    match m.scanningList
    case None => (Err(ValueError(NoScanningList)), m)
    case Some(list) =>
      var counted := m.(nScans := m.nScans + 1);
      if Injects(counted.nScans, counted) then (Ok([]), counted.(nFailures := m.nFailures + 1))
      else (Ok(LeV1.ScanBytes(MockScan(list, o))), counted)
  }

  /** `read`: scan bytes (whatever size is asked for) when responses are
      switched off or in IDLE, the serial number after its request, and
      nothing else. */
  function ReadStep(m: Mock, o: Oracle): (r: (Result<ByteString>, Mock))
    ensures m.emptyResponses || m.state == Idle ==> r == ScanBytesStep(m, o)
    ensures !m.emptyResponses && m.state == ReceivedSerialNumberRequest ==> r == (Ok(Encode(MockSerialNumber)), m.(state := Idle))
    ensures !m.emptyResponses && m.state !in {Idle, ReceivedSerialNumberRequest} ==> r == (Err(NotImplementedError("")), m)
  {
    if m.emptyResponses then ScanBytesStep(m, o)
    else if m.state == Idle then ScanBytesStep(m, o)
    else if m.state == ReceivedSerialNumberRequest then (Ok(Encode(MockSerialNumber)), m.(state := Idle))
    else (Err(NotImplementedError("")), m)
  }

  /** The reply `read_until` gives in each state that has a fixed one,
      and the state it moves to. */
  function FixedReply(s: MockState): Option<(Text, MockState)>
  {
    match s
    case WaitingForSettings => Some((ReadyForSettings, WaitingForSettings))
    case ReceivedSettings => Some((SettingsReceived, Idle))
    case WaitingForList => Some((ReadyForList, WaitingForList))
    case ReceivedList => Some((ListReceived, Idle))
    case StartingScan => Some((ScanStarted, Scanning))
    case ReceivedFirmwareVersionRequest => Some((MockFirmware, Idle))
    case _ => None
  }

  /** The answer to a status request: idle once the scan has finished,
      scanning otherwise. */
  function StatusReplyStep(m: Mock, elapsed: bool): (Result<ByteString>, Mock)
  {
    var (finished, next) := ScanFinishedStep(m, elapsed);
    if finished.Err? then (Err(finished.error), next)
    else if finished.value then (Ok(Encode(LeV1.Idle)), next.(state := Idle))
    else (Ok(Encode(LeV1.Scanning)), next.(state := Scanning))
  }

  /** `read_until`: nothing at all when responses are switched off; else
      the fixed reply of the state (entering SCANNING marks the scan as
      running), or the status reply. */
  function ReadUntilStep(m: Mock, elapsed: bool): (Result<ByteString>, Mock)
  {
    if m.emptyResponses then (Ok([]), m)
    else if m.state == ReceivedStatusRequest then StatusReplyStep(m, elapsed)
    else
      match FixedReply(m.state)
      case None => (Err(NotImplementedError("Unknown state: " + StateName(m.state))), m)
      case Some((reply, next)) =>
        (Ok(Encode(reply)), m.(state := next, isScanning := m.isScanning || next == Scanning))
  }

  // ---------------------------------------------------------------------
  // Properties of the state machine

  /** From IDLE, V1's settings, list and start commands each lead to one
      fixed state; starting also notes the start time. */
  lemma IdleCommandStates(m: Mock, elapsed: bool)
    requires m.state == Idle
    ensures WriteStep(m, LeV1.SettingsBytes, elapsed) == (Ok(()), m.(state := WaitingForSettings))
    ensures WriteStep(m, LeV1.ListBytes, elapsed) == (Ok(()), m.(state := WaitingForList))
    ensures WriteStep(m, LeV1.StartBytes, elapsed) == (Ok(()), m.(state := StartingScan, scanStarted := true))
  {
  }

  /** From IDLE, the status and firmware requests each lead to the state
      whose read answers them. */
  lemma IdleQueryStates(m: Mock, elapsed: bool)
    requires m.state == Idle
    ensures WriteStep(m, LeV1.StatusBytes, elapsed) == (Ok(()), m.(state := ReceivedStatusRequest))
    ensures WriteStep(m, LeV1.FirmwareBytes, elapsed) == (Ok(()), m.(state := ReceivedFirmwareVersionRequest))
  {
  }

  /** From IDLE (where no scan runs), the serial number request leads to
      the state whose plain read answers it, and a fetch changes nothing. */
  lemma IdleSerialAndFetch(m: Mock, elapsed: bool)
    requires m.state == Idle && Consistent(m)
    ensures WriteStep(m, SerialNumberBytes, elapsed) == (Ok(()), m.(state := ReceivedSerialNumberRequest))
    ensures WriteStep(m, LeV1.FetchBytes, elapsed) == (Ok(()), m)
  {
  }

  /** IDLE accepts exactly the seven commands above; anything else is
      refused and leaves the mock as it was. */
  lemma IdleRefusesOthers(m: Mock, input: ByteString, elapsed: bool)
    requires m.state == Idle && Consistent(m)
    ensures WriteStep(m, input, elapsed).0.Ok? <==>
      input in {LeV1.SettingsBytes, LeV1.ListBytes, LeV1.StartBytes, LeV1.FetchBytes, LeV1.StatusBytes, SerialNumberBytes, LeV1.FirmwareBytes}
    ensures WriteStep(m, input, elapsed).0.Err? ==> WriteStep(m, input, elapsed).1 == m
  {
    if IsAscii(input) {
      EncodeDecoded(input);
    }
  }

  /** SCANNING takes only a status request or a fetch; a status request is
      always taken, and anything refused leaves the mock as it was. */
  lemma ScanningAcceptsStatusAndFetch(m: Mock, input: ByteString, elapsed: bool)
    requires m.state == Scanning
    ensures WriteStep(m, input, elapsed).0.Ok? ==> input == LeV1.StatusBytes || input == LeV1.FetchBytes
    ensures input == LeV1.StatusBytes ==> WriteStep(m, input, elapsed) == (Ok(()), m.(state := ReceivedStatusRequest))
    ensures input != LeV1.FetchBytes && WriteStep(m, input, elapsed).0.Err? ==> WriteStep(m, input, elapsed).1 == m
  {
    if IsAscii(input) {
      EncodeDecoded(input);
    }
  }

  /** The settings V1 packs are stored exactly: list length, integration
      periods and the EMA flag, and the mock waits for the acknowledgement
      read. */
  lemma SettingsStored(m: Mock, config: LeConfig, elapsed: bool)
    requires m.state == WaitingForSettings && IsU16(config.nPoints) && IsU16(config.integrationPeriods)
    ensures WriteStep(m, PackLE16(LeV1.SettingsValues(config)), elapsed)
      == (Ok(()), m.(nScanningPoints := Some(config.nPoints), integrationPeriods := Some(config.integrationPeriods as nat),
                     useEma := Some(config.useEma), state := ReceivedSettings))
  {
    assert AllU16(LeV1.SettingsValues(config));
    DecodeIntsOfPacked(LeV1.SettingsValues(config));
  }

  /** A settings message of fewer than three values is refused with an
      index error, after storing the values it does carry. */
  lemma ShortSettingsRefused(m: Mock, xs: seq<int>, elapsed: bool)
    requires m.state == WaitingForSettings && AllU16(xs) && |xs| < 3
    ensures WriteStep(m, PackLE16(xs), elapsed) == (Err(IndexError(ListIndex)),
      m.(nScanningPoints := if |xs| >= 1 then Some(xs[0]) else m.nScanningPoints,
         integrationPeriods := if |xs| >= 2 then Some(xs[1]) else m.integrationPeriods))
  {
    var input := PackLE16(xs);
    DecodeIntsOfPacked(xs);
    assert WriteStep(m, input, elapsed) == SettingsStep(m, input);
    if |xs| == 0 {
      assert SettingsStep(m, input) == (Err(IndexError(ListIndex)), m);
    } else if |xs| == 1 {
      assert SettingsStep(m, input) == (Err(IndexError(ListIndex)), m.(nScanningPoints := Some(xs[0])));
    } else {
      assert SettingsStep(m, input)
        == (Err(IndexError(ListIndex)), m.(nScanningPoints := Some(xs[0]), integrationPeriods := Some(xs[1])));
    }
  }

  /** The list V1 packs is stored word for word. */
  lemma ListStored(m: Mock, list: seq<Word>, elapsed: bool)
    requires m.state == WaitingForList
    ensures WriteStep(m, Flatten(list), elapsed) == (Ok(()), m.(scanningList := Some(list), state := ReceivedList))
  {
    DecodeFloatsOfPacked(list);
  }

  /** The fixed replies that acknowledge are clean lines starting with
      "ACK". */
  lemma AcknowledgementsClean()
    ensures LeV1.Clean(ReadyForSettings) && StartsWith(ReadyForSettings, LeV1.OkResponse)
    ensures LeV1.Clean(SettingsReceived) && StartsWith(SettingsReceived, LeV1.OkResponse)
    ensures LeV1.Clean(ReadyForList) && StartsWith(ReadyForList, LeV1.OkResponse)
    ensures LeV1.Clean(ListReceived) && StartsWith(ListReceived, LeV1.OkResponse)
    ensures LeV1.Clean(ScanStarted) && StartsWith(ScanStarted, LeV1.OkResponse)
  {
    AckClean(ReadyForSettings);
    AckClean(SettingsReceived);
    AckClean(ReadyForList);
    AckClean(ListReceived);
    AckClean(ScanStarted);
  }

  /** A text that starts with "ACK", ends in a full stop and holds no line
      break is a clean acknowledgement. */
  lemma AckClean(t: Ascii)
    requires |t| > 3 && t[..3] == LeV1.OkResponse && t[|t| - 1] == '.' && '\n' !in t
    ensures LeV1.Clean(t) && StartsWith(t, LeV1.OkResponse)
  {
  }

  /** The replies that acknowledge start with "ACK", and V1's acknowledged
      reads accept them. */
  lemma AcknowledgingReplies(m: Mock, command: string, elapsed: bool)
    requires !m.emptyResponses && m.state in {WaitingForSettings, ReceivedSettings, WaitingForList, ReceivedList, StartingScan}
    ensures var r := ReadUntilStep(m, elapsed).0;
      r.Ok? && StartsWith(Decode(r.value), LeV1.OkResponse)
      && LeV1.ReplyCheck(command, true, Strip(Decode(r.value))) == Ok(Decode(r.value))
  {
    var t := FixedReply(m.state).value.0;
    assert ReadUntilStep(m, elapsed).0 == Ok(Encode(t));
    assert LeV1.Clean(t) && StartsWith(t, LeV1.OkResponse) by {
      assert t in {ReadyForSettings, SettingsReceived, ReadyForList, ListReceived, ScanStarted};
      AcknowledgementsClean();
    }
    DecodeEncode(t);
    StripClean(t);
  }

  /** Stripping leaves a reply with no white space at its ends intact. */
  lemma StripClean(t: string)
    requires t != [] && !IsSpace(t[0]) && !IsSpace(t[|t| - 1])
    ensures Strip(t) == t
  {
    assert TrimStart(t) == t;
    assert TrimEnd(t) == t;
  }

  /** A status request is answered with one of V1's two statuses, "ACK:
      Idle." exactly when the scan has finished and "Error: Scan is
      ongoing." otherwise; a fault while checking leaves the mock as it
      was. */
  lemma StatusReplies(m: Mock, elapsed: bool)
    requires !m.emptyResponses && m.state == ReceivedStatusRequest
    ensures var (r, next) := ReadUntilStep(m, elapsed);
      (r == Ok(Encode(LeV1.Idle)) <==> ScanFinishedStep(m, elapsed).0 == Ok(true))
      && (r.Ok? ==> r.value == Encode(LeV1.Idle) || r.value == Encode(LeV1.Scanning))
      && (r.Err? ==> r.error.ValueError? && next == m)
  {
    assert Encode(LeV1.Idle) != Encode(LeV1.Scanning) by {
      assert |Encode(LeV1.Idle)| != |Encode(LeV1.Scanning)|;
    }
  }

  /** After "ACK: Idle." the mock is back in IDLE with no scan running;
      after "Error: Scan is ongoing." it is in SCANNING with the scan still
      running. */
  lemma StatusReplyStates(m: Mock, elapsed: bool)
    requires !m.emptyResponses && m.state == ReceivedStatusRequest
    ensures var (r, next) := ReadUntilStep(m, elapsed);
      (r == Ok(Encode(LeV1.Idle)) ==> next.state == Idle && !next.isScanning)
      && (r == Ok(Encode(LeV1.Scanning)) ==> next.state == Scanning && next.isScanning)
  {
    assert Encode(LeV1.Idle) != Encode(LeV1.Scanning) by {
      assert |Encode(LeV1.Idle)| != |Encode(LeV1.Scanning)|;
    }
  }

  /** V1's status check accepts every status reply the mock gives. */
  lemma StatusRepliesAccepted(m: Mock, elapsed: bool)
    requires !m.emptyResponses && m.state == ReceivedStatusRequest
    ensures var r := ReadUntilStep(m, elapsed).0;
      r.Ok? ==> LeV1.StatusOf(Ok(Strip(Decode(r.value)))) == Ok(Decode(r.value))
  {
    StatusReplies(m, elapsed);
    LeV1.StatusesClean();
    DecodeEncode(LeV1.Idle);
    DecodeEncode(LeV1.Scanning);
    StripClean(LeV1.Idle);
    StripClean(LeV1.Scanning);
  }

  /** Every write keeps the mock's bookkeeping consistent. */
  lemma WriteKeepsConsistent(m: Mock, input: ByteString, elapsed: bool)
    requires Consistent(m)
    ensures Consistent(WriteStep(m, input, elapsed).1)
  {
    var next := WriteStep(m, input, elapsed).1;
    if m.state == Idle {
      assert next == IdleStep(m, input, elapsed).1;
    } else if m.state == Scanning {
      assert next == ScanningStep(m, input, elapsed).1;
    }
  }

  /** Every plain read keeps the mock's bookkeeping consistent. */
  lemma ReadKeepsConsistent(m: Mock, o: Oracle)
    requires Consistent(m)
    ensures Consistent(ReadStep(m, o).1)
  {
  }

  /** Every line read keeps the mock's bookkeeping consistent. */
  lemma ReadUntilKeepsConsistent(m: Mock, elapsed: bool)
    requires Consistent(m)
    ensures Consistent(ReadUntilStep(m, elapsed).1)
  {
  }

  /** In a consistent mock the start time is always known: the only fault
      a finished-check can raise is the missing-settings one. */
  lemma OnlySettingsCanBeMissing(m: Mock, elapsed: bool)
    requires Consistent(m)
    ensures ScanFinishedStep(m, elapsed).0.Err? ==> ScanFinishedStep(m, elapsed).0.error == ValueError(ScanTimeUnknown)
  {
  }

  /** A mock with both failure settings at the factory's "fail first scan"
      values fails a scan read exactly when no failure has happened yet. */
  lemma FailsOnlyFirstRead(m: Mock, o: Oracle)
    requires m.failAfter == Some(0) && m.failsWanted == Some(1) && m.nFailures <= 1
    requires m.scanningList.Some? && |m.scanningList.value| > 0
    ensures var (r, next) := ScanBytesStep(m, o);
      (r == Ok([]) <==> m.nFailures == 0) && next.nFailures == 1
  {
  }

  /** A mock that fails after zero reads with no limit on failures, as
      "mock_device_scan_should_fail" is built, fails every scan read, and
      stays that way. */
  lemma FailsEveryRead(m: Mock, o: Oracle)
    requires m.failAfter == Some(0) && m.failsWanted.None? && m.scanningList.Some?
    ensures var (r, next) := ScanBytesStep(m, o);
      r == Ok([]) && next.failAfter == Some(0) && next.failsWanted.None? && next.scanningList == m.scanningList
  {
  }

  /** Without a failure threshold every scan read carries the full data. */
  lemma NeverFailsByDefault(m: Mock, o: Oracle)
    requires m.failAfter.None? && m.scanningList.Some?
    ensures var (r, next) := ScanBytesStep(m, o);
      r == Ok(LeV1.ScanBytes(MockScan(m.scanningList.value, o))) && next.nFailures == m.nFailures
  {
  }

  // ---------------------------------------------------------------------
  // The factory

  /** `list_mock_devices`. */
  const MockNames: seq<string> := ["mock_device", "mock_device_scan_should_fail",
    "mock_device_fail_first_scan", "mock_device_empty_responses", "mock_device_instant"]

  /** `_mock_device_factory`: a fresh mock for each known port name, with
      that name's failure and response settings; any other configuration
      type or port name is refused. */
  function MockFactory(kind: Registry.DeviceConfig, port: string): (r: Result<Mock>)
    ensures r.Ok? <==> kind.LeDevice? && port in MockNames
    ensures r.Ok? ==> (Consistent(r.value) && r.value.state == Idle
      && r.value.nScans == 0 && r.value.nFailures == 0 && r.value.scanningList.None?)
    ensures kind.OtherDevice? ==> r == Err(ValueError("Unsupported configuration type: " + kind.typeName))
  {
    if kind.OtherDevice? then Err(ValueError("Unsupported configuration type: " + kind.typeName))
    else if port == "mock_device_scan_should_fail" then Ok(Fresh(Some(0), None, false, false))
    else if port == "mock_device" then Ok(Fresh(None, None, false, false))
    else if port == "mock_device_instant" then Ok(Fresh(None, None, false, true))
    else if port == "mock_device_fail_first_scan" then Ok(Fresh(Some(0), Some(1), false, false))
    else if port == "mock_device_empty_responses" then Ok(Fresh(None, None, true, false))
    else Err(ValueError("Unknown mock device requested: " + port + ". Valid options are: " + Registry.ListRepr(MockNames)))
  }

  /** The settings that tell the five mocks apart: only "fail first scan"
      limits its failures (to one), only the two failing mocks fail at all,
      and only "empty responses" switches replies off. */
  lemma FactorySettings(port: string)
    requires port in MockNames
    ensures var m := MockFactory(Registry.LeDevice, port).value;
      (m.failAfter == Some(0) <==> port in {"mock_device_scan_should_fail", "mock_device_fail_first_scan"})
      && (m.failAfter.None? <==> m.failAfter != Some(0))
      && (m.failsWanted == Some(1) <==> port == "mock_device_fail_first_scan")
      && (m.failsWanted.None? <==> port != "mock_device_fail_first_scan")
      && (m.emptyResponses <==> port == "mock_device_empty_responses")
      && (m.instantResponse <==> port == "mock_device_instant")
  {
  }

  /** An unknown port name is refused with the list of valid names. */
  lemma UnknownPortRefused(port: string)
    requires port !in MockNames
    ensures MockFactory(Registry.LeDevice, port)
      == Err(ValueError("Unknown mock device requested: " + port + ". Valid options are: " + Registry.ListRepr(MockNames)))
  {
  }

  // ---------------------------------------------------------------------
  // V1 against the mock

  /** A mock reply is a burst with no line terminator, which a line read
      takes whole; a clean reply the check accepts is returned on the first
      read. */
  lemma BareReply(command: string, checkAck: bool, reply: string, rest: seq<ByteString>)
    requires LeV1.Clean(reply) && (checkAck ==> StartsWith(reply, LeV1.OkResponse))
    ensures LeV1.ResponseOn(command, checkAck, Then(Encode(reply), rest)) == (Ok(reply), rest, 1)
  {
    var b := Encode(reply);
    assert LineLength(b) == |b| by {
      BareLineLength(b);
    }
    assert ReadLineOf(Then(b, rest)) == (b, rest);
    DecodeEncode(reply);
    StripClean(reply);
    SuccessFirstTime(LeV1.ResponseStep(command, checkAck), Then(b, rest), LeV1.ResponseTries);
  }

  /** A burst with no terminator is one line. */
  lemma {:induction false} BareLineLength(b: seq<int>)
    requires forall k :: 0 <= k < |b| ==> b[k] != LF
    ensures LineLength(b) == |b|
  {
    if b != [] {
      BareLineLength(b[1..]);
    }
  }

  /** The single injected failure of "mock_device_fail_first_scan" is
      absorbed by V1's scan retry: V1 writes "R" and reads nothing, writes
      "R" again and reads the whole scan, and returns it after exactly two
      requests. */
  lemma FirstScanFailureAbsorbed(m: Mock, e1: bool, e2: bool, o1: Oracle, o2: Oracle, rest: seq<ByteString>)
    requires m.state == Idle && Consistent(m) && !m.emptyResponses
    requires m.failAfter == Some(0) && m.failsWanted == Some(1) && m.nFailures == 0
    requires m.scanningList.Some? && |m.scanningList.value| > 0
    ensures var w1 := WriteStep(m, LeV1.FetchBytes, e1);
      var r1 := ReadStep(w1.1, o1);
      var w2 := WriteStep(r1.1, LeV1.FetchBytes, e2);
      var r2 := ReadStep(w2.1, o2);
      var l := m.scanningList.value;
      w1.0.Ok? && r1.0 == Ok([]) && w2.0.Ok? && r2.0 == Ok(LeV1.ScanBytes(MockScan(l, o2)))
      && r2.1.nFailures == 1
      && LeV1.Yields(LeV1.ReadScanOn(|l|, Then(r1.0.value, Then(r2.0.value, rest))),
                     Ok(MockScan(l, o2)), rest, [LeV1.FetchBytes, LeV1.FetchBytes])
  {
    var l := m.scanningList.value;
    IdleSerialAndFetch(m, e1);
    var m1 := ReadStep(m, o1).1;
    assert m1 == m.(nScans := m.nScans + 1, nFailures := 1);
    IdleSerialAndFetch(m1, e2);
    LeV1.ScanAfterSilence(|l|, MockScan(l, o2), rest);
  }

  /** The text of V2's ping header, as the mock decodes it. */
  const PingText: string := "AB" + [0 as char, 1 as char, 0 as char, 0 as char, 0 as char, 0 as char]

  /** V2's ping header is not a command the mock knows: written in IDLE it
      is refused and changes nothing. */
  lemma PingHeaderRefused(m: Mock, elapsed: bool)
    requires m.state == Idle
    ensures WriteStep(m, LeV2.Header(0, LeV2.InstSysPing), elapsed) == (Err(NotImplementedError("Unknown message: " + PingText)), m)
  {
    var h := LeV2.Header(0, LeV2.InstSysPing);
    assert h == [0x41, 0x42, 0, 1, 0, 0, 0, 0];
    assert IsAscii(h);
    assert Decode(h) == PingText;
  }

  /** V2's `connect` against a fresh mock: the ping header is written and
      any fault is reported as a failed ping and then a failed connection;
      once the header is taken, the ping reads its reply from `replies`. */
  function V2ConnectOverMock(m: Mock, elapsed: bool, replies: seq<ByteString>): (r: Result<()>)
    ensures r.Err? ==> r.error.DeviceComError?
  {
    match WriteStep(m, LeV2.Header(0, LeV2.InstSysPing), elapsed).0
    case Err(e) => Err(DeviceComError(LeV2.ConnectFailed + LeV2.PingFailed + e.msg))
    case Ok(_) =>
      match LeV2.PingOn(replies).0
      case Err(e) => Err(DeviceComError(LeV2.ConnectFailed + e.msg))
      case Ok(_) => Ok(())
  }

  /** V1's verification against a fresh mock: "H" is written and
      `get_status` reads the mock's reply, then the bursts in `rest`. */
  function V1StatusOverMock(m: Mock, e1: bool, e2: bool, rest: seq<ByteString>): Result<()>
  {
    var (w, m1) := WriteStep(m, LeV1.StatusBytes, e1);
    if w.Err? then Err(w.error)
    else
      match ReadUntilStep(m1, e2).0
      case Err(e) => Err(e)
      case Ok(reply) =>
        match LeV1.StatusOn(Then(reply, rest)).result
        case Err(e) => Err(e)
        case Ok(_) => Ok(())
  }

  /** What negotiation sees from each version when the port names a mock:
      each version builds its own fresh mock `m` and connects to it; V2
      then has nothing more to verify, V1 asks for the status. */
  function MockProbes(m: Mock, e1: bool, e2: bool, e3: bool, replies: seq<ByteString>, rest: seq<ByteString>): string -> Registry.Probe
  {
    v => if v == "v2" then Registry.Probe(V2ConnectOverMock(m, e1, replies), Ok(()))
         else Registry.Probe(Ok(()), V1StatusOverMock(m, e2, e3, rest))
  }

  /** Against a mock in IDLE, V2's connection fails with the refusal of
      its ping header. */
  lemma V2RefusedByMock(m: Mock, elapsed: bool, replies: seq<ByteString>)
    requires m.state == Idle
    ensures V2ConnectOverMock(m, elapsed, replies)
      == Err(DeviceComError(LeV2.ConnectFailed + LeV2.PingFailed + "Unknown message: " + PingText))
  {
    PingHeaderRefused(m, elapsed);
  }

  /** Against a consistent mock in IDLE that answers, V1's status request
      is answered with "ACK: Idle.", which V1 accepts. */
  lemma V1AcceptsMock(m: Mock, e1: bool, e2: bool, rest: seq<ByteString>)
    requires m.state == Idle && Consistent(m) && !m.emptyResponses
    ensures V1StatusOverMock(m, e1, e2, rest) == Ok(())
  {
    IdleQueryStates(m, e1);
    var m1 := m.(state := ReceivedStatusRequest);
    assert ReadUntilStep(m1, e2).0 == Ok(Encode(LeV1.Idle));
    LeV1.StatusesClean();
    BareReply(LeV1.StatusCommand, false, LeV1.Idle, rest);
  }

  /** Negotiating against a mock that answers: V2's ping is refused, and
      V1's status request is answered with "ACK: Idle.", so negotiation
      settles on v1. */
  lemma NegotiationFallsBackToV1(port: string, e1: bool, e2: bool, e3: bool, replies: seq<ByteString>, rest: seq<ByteString>)
    requires port in MockNames && port != "mock_device_empty_responses"
    ensures var m := MockFactory(Registry.LeDevice, port).value;
      Registry.Negotiate(Registry.LeEntries(Registry.InitialTable), MockProbes(m, e1, e2, e3, replies, rest)) == Ok("v1")
  {
    var m := MockFactory(Registry.LeDevice, port).value;
    FactorySettings(port);
    V2RefusedByMock(m, e1, replies);
    V1AcceptsMock(m, e2, e3, rest);
    var le := Registry.LeEntries(Registry.InitialTable);
    assert Registry.Lookup(le, "v2") == Some(Registry.LeV2Class);
    assert Registry.Lookup(le, "v1") == Some(Registry.LeV1Class);
    Registry.PrefersNewest(le, MockProbes(m, e1, e2, e3, replies, rest));
  }

  /** A line read from a device that sends nothing more is empty every
      time: all three of V1's reads fail and the empty-reply fault is
      raised. */
  lemma SilentAfterEmptyBurst(command: string, checkAck: bool)
    ensures LeV1.ResponseOn(command, checkAck, Then([], [])).0 == Err(LeV1.EmptyReply(command))
  {
    var step := LeV1.ResponseStep(command, checkAck);
    var s0: seq<ByteString> := Then([], []);
    assert ReadLineOf(s0) == ([], []);
    assert Strip(Decode([])) == [];
    assert step(s0) == (Err(LeV1.EmptyReply(command)), []);
    assert step([]) == (Err(LeV1.EmptyReply(command)), []);
    forall k: nat | k < LeV1.ResponseTries
      ensures step(Iterate(step, s0, k)).0 == Err(LeV1.EmptyReply(command))
    {
      if k > 0 {
        assert Iterate(step, s0, k) == Iterate(step, [], k - 1);
        LeV1.IterateSilence(step, k - 1, LeV1.EmptyReply(command));
      }
    }
    PermanentFailure(step, s0, LeV1.ResponseTries);
  }

  /** A mock without responses meets V1's status request with silence. */
  lemma EmptyMockIsSilent(m: Mock, e2: bool, e3: bool)
    requires m.state == Idle && m.emptyResponses
    ensures V1StatusOverMock(m, e2, e3, []) == Err(LeV1.EmptyReply(LeV1.StatusCommand))
  {
    IdleQueryStates(m, e2);
    assert ReadUntilStep(m.(state := ReceivedStatusRequest), e3).0 == Ok([]);
    SilentAfterEmptyBurst(LeV1.StatusCommand, false);
  }

  /** Negotiating against "mock_device_empty_responses": V2's ping is
      refused, V1's status request is met with silence, and the resulting
      serial fault aborts negotiation. */
  lemma EmptyMockAbortsNegotiation(e1: bool, e2: bool, e3: bool, replies: seq<ByteString>)
    ensures var m := MockFactory(Registry.LeDevice, "mock_device_empty_responses").value;
      V1StatusOverMock(m, e2, e3, []) == Err(LeV1.EmptyReply(LeV1.StatusCommand))
      && Registry.Negotiate(Registry.LeEntries(Registry.InitialTable), MockProbes(m, e1, e2, e3, replies, []))
        == Err(LeV1.EmptyReply(LeV1.StatusCommand))
  {
    var m := MockFactory(Registry.LeDevice, "mock_device_empty_responses").value;
    V2RefusedByMock(m, e1, replies);
    EmptyMockIsSilent(m, e2, e3);
    var le := Registry.LeEntries(Registry.InitialTable);
    var probes := MockProbes(m, e1, e2, e3, replies, []);
    assert Registry.Lookup(le, "v2") == Some(Registry.LeV2Class);
    assert Registry.Lookup(le, "v1") == Some(Registry.LeV1Class);
    assert Registry.PassedOver(le, probes, Registry.SupportedLe[0]);
    Registry.FirstDecides(le, probes, Registry.SupportedLe, None, 1);
  }

  // ---------------------------------------------------------------------
  // The device object

  /** `LeMockDevice`: the fields `write`, `read` and `read_until` update. */
  class LeMockDevice {
    var failAfter: Option<nat>
    var failsWanted: Option<nat>
    var nFailures: nat
    var nScans: nat
    var state: MockState
    var isScanning: bool
    var nScanningPoints: Option<nat>
    var integrationPeriods: Option<nat>
    var useEma: Option<bool>
    var scanningList: Option<seq<Word>>
    var scanStarted: bool
    var emptyResponses: bool
    var instantResponse: bool

    /** All fields at once. */
    function Snapshot(): Mock
      reads this
    {
      Mock(failAfter, failsWanted, nFailures, nScans, state, isScanning, nScanningPoints,
           integrationPeriods, useEma, scanningList, scanStarted, emptyResponses, instantResponse)
    }

    constructor (failAfter: Option<nat>, failsWanted: Option<nat>, emptyResponses: bool, instantResponse: bool)
      ensures Snapshot() == Fresh(failAfter, failsWanted, emptyResponses, instantResponse)
    {
      this.failAfter := failAfter;
      this.failsWanted := failsWanted;
      nFailures := 0;
      nScans := 0;
      state := Idle;
      isScanning := false;
      nScanningPoints := None;
      integrationPeriods := None;
      useEma := None;
      scanningList := None;
      scanStarted := false;
      this.emptyResponses := emptyResponses;
      this.instantResponse := instantResponse;
    }

    method ScanHasFinished(elapsed: bool) returns (r: Result<bool>)
      modifies this
      ensures (r, Snapshot()) == ScanFinishedStep(old(Snapshot()), elapsed)
    {
      if !isScanning {
        return Ok(true);
      }
      if !scanStarted {
        return Err(ValueError(StartTimeUnknown));
      }
      if !Truthy(nScanningPoints) || !Truthy(integrationPeriods) {
        return Err(ValueError(ScanTimeUnknown));
      }
      if elapsed {
        isScanning := false;
        scanStarted := false;
      }
      r := Ok(elapsed);
    }

    method HandleIdle(input: ByteString, elapsed: bool) returns (r: Result<()>)
      modifies this
      ensures (r, Snapshot()) == IdleStep(old(Snapshot()), input, elapsed)
    {
      var msg :- Utf8(input);
      var command := CommandOf(msg);
      r := Ok(());
      if command == Some('S') {
        state := WaitingForSettings;
      } else if command == Some('L') {
        state := WaitingForList;
      } else if command == Some('G') {
        state := StartingScan;
        scanStarted := true;
      } else if command == Some('R') {
        var finished := ScanHasFinished(elapsed);
        if finished.Err? {
          r := Err(finished.error);
        }
      } else if command == Some('H') {
        state := ReceivedStatusRequest;
      } else if command == Some('s') {
        state := ReceivedSerialNumberRequest;
      } else if command == Some('v') {
        state := ReceivedFirmwareVersionRequest;
      } else {
        r := Err(NotImplementedError("Unknown message: " + msg));
      }
    }

    method HandleScanning(input: ByteString, elapsed: bool) returns (r: Result<()>)
      modifies this
      ensures (r, Snapshot()) == ScanningStep(old(Snapshot()), input, elapsed)
    {
      var msg :- Utf8(input);
      var command := CommandOf(msg);
      if command == Some('H') {
        state := ReceivedStatusRequest;
        return Ok(());
      }
      if command == Some('R') {
        var finished := ScanHasFinished(elapsed);
        if finished.Err? {
          return Err(finished.error);
        }
        if finished.value {
          state := Idle;
        }
        return Ok(());
      }
      r := Err(NotImplementedError(""));
    }

    method HandleWaitingForSettings(input: ByteString) returns (r: Result<()>)
      modifies this
      ensures (r, Snapshot()) == SettingsStep(old(Snapshot()), input)
    {
      var ints :- DecodeInts(input);
      if |ints| == 0 {
        return Err(IndexError(ListIndex));
      }
      nScanningPoints := Some(ints[0]);
      if |ints| == 1 {
        return Err(IndexError(ListIndex));
      }
      integrationPeriods := Some(ints[1]);
      if |ints| == 2 {
        return Err(IndexError(ListIndex));
      }
      useEma := Some(ints[2] != 0);
      state := ReceivedSettings;
      r := Ok(());
    }

    method HandleWaitingForList(input: ByteString) returns (r: Result<()>)
      modifies this
      ensures (r, Snapshot()) == ListStep(old(Snapshot()), input)
    {
      var list :- DecodeFloats(input);
      scanningList := Some(list);
      state := ReceivedList;
      r := Ok(());
    }

    method Write(input: ByteString, elapsed: bool) returns (r: Result<()>)
      modifies this
      ensures (r, Snapshot()) == WriteStep(old(Snapshot()), input, elapsed)
    {
      if state == WaitingForSettings {
        r := HandleWaitingForSettings(input);
      } else if state == WaitingForList {
        r := HandleWaitingForList(input);
      } else if state == Idle {
        r := HandleIdle(input, elapsed);
      } else if state == Scanning {
        r := HandleScanning(input, elapsed);
      } else {
        r := Err(NotImplementedError(""));
      }
    }

    method CreateScanBytes(o: Oracle) returns (r: Result<ByteString>)
      modifies this
      ensures (r, Snapshot()) == ScanBytesStep(old(Snapshot()), o)
    {
      if scanningList.None? {
        return Err(ValueError(NoScanningList));
      }
      nScans := nScans + 1;
      if Injects(nScans, Snapshot()) {
        nFailures := nFailures + 1;
        r := Ok([]);
      } else {
        r := Ok(LeV1.ScanBytes(MockScan(scanningList.value, o)));
      }
    }

    /** `read(size)`; the size asked for is not looked at. */
    method Read(size: nat, o: Oracle) returns (r: Result<ByteString>)
      modifies this
      ensures (r, Snapshot()) == ReadStep(old(Snapshot()), o)
    {
      if emptyResponses {
        r := CreateScanBytes(o);
      } else if state == Idle {
        r := CreateScanBytes(o);
      } else if state == ReceivedSerialNumberRequest {
        state := Idle;
        r := Ok(Encode(MockSerialNumber));
      } else {
        r := Err(NotImplementedError(""));
      }
    }

    /** The status branch of `read_until`. */
    method AnswerStatus(elapsed: bool) returns (r: Result<ByteString>)
      modifies this
      ensures (r, Snapshot()) == StatusReplyStep(old(Snapshot()), elapsed)
    {
      var finished := ScanHasFinished(elapsed);
      if finished.Err? {
        return Err(finished.error);
      }
      if finished.value {
        state := Idle;
        return Ok(Encode(LeV1.Idle));
      }
      state := Scanning;
      r := Ok(Encode(LeV1.Scanning));
    }

    /** `read_until(expected)`; the terminator asked for is not looked at. */
    method ReadUntil(elapsed: bool) returns (r: Result<ByteString>)
      modifies this
      ensures (r, Snapshot()) == ReadUntilStep(old(Snapshot()), elapsed)
    {
      if emptyResponses {
        return Ok([]);
      }
      if state == ReceivedStatusRequest {
        r := AnswerStatus(elapsed);
        return;
      }
      match FixedReply(state)
      case None =>
        r := Err(NotImplementedError("Unknown state: " + StateName(state)));
      case Some((reply, next)) =>
        state := next;
        if next == Scanning {
          isScanning := true;
        }
        r := Ok(Encode(reply));
    }

    /** `close`: the mock has nothing to release. */
    method Close()
      ensures Snapshot() == old(Snapshot())
    {
    }
  }
}
