/** `MockProtocolV1`: the V1-shaped protocol object that drives a
    `LeMockDevice` directly, without the command-byte retries of the real
    V1 protocol. Every operation first checks that a device is connected.
    What the mock does with each write and read is the step functions of
    `MockDevice`; here they are chained the way each protocol call chains
    them. The clock is read as one `elapsed` flag per protocol call. */
module MockProtocol {
  import opened Errors
  import opened Bytes
  import opened Configuration
  import opened MockDevice
  import LeV1
  import Registry

  const NotConnected: string := "Device not connected"
  const NoListSet: string := "No scanning list set"
  const PackRange: string := "'H' format requires 0 <= number <= 65535"

  // ---------------------------------------------------------------------
  // The scanning list

  /** `_calculate_scanning_list`'s share: every interval gets the
      truncated `n_points // k` points. */
  function EqualCounts(config: LeConfig): (r: seq<nat>)
    ensures |r| == |Intervals(config)|
    ensures forall i :: 0 <= i < |r| ==> |r| * r[i] <= config.nPoints < |r| * (r[i] + 1)
  {
    var k := |Intervals(config)|;
    seq(k, _ => config.nPoints / k)
  }

  /** The list `_calculate_scanning_list` builds: each interval's equal
      share in turn, the upper bound included only for a single interval. */
  function MockSweep(config: LeConfig): seq<SweepPoint>
  {
    SweepOf(EqualCounts(config), |Intervals(config)| == 1)
  }

  /** `k` equal parts add up to `k` times the part. */
  lemma {:induction false} SumEqual(k: nat, c: nat)
    ensures Sum(seq(k, _ => c)) == k * c
  {
    if k > 0 {
      var xs := seq(k, _ => c);
      assert xs[..k - 1] == seq(k - 1, _ => c);
      SumEqual(k - 1, c);
    }
  }

  /** The list has `k * (n_points // k)` entries for `k` intervals, so it
      falls short of `n_points` by less than `k`, and every entry lies in
      an interval that exists and carries that interval's equal share. */
  lemma MockSweepShape(config: LeConfig)
    ensures var k := |Intervals(config)|;
      |MockSweep(config)| == k * (config.nPoints / k)
      && config.nPoints - k < |MockSweep(config)| <= config.nPoints
    ensures forall p :: p in MockSweep(config) ==>
      p.interval < |Intervals(config)| && p.index < p.count && p.count == config.nPoints / |Intervals(config)|
  {
    var k := |Intervals(config)|;
    SweepLength(EqualCounts(config), k == 1);
    SumEqual(k, config.nPoints / k);
    assert EqualCounts(config) == seq(k, _ => config.nPoints / k);
    SweepEntriesInRange(EqualCounts(config), k == 1);
  }

  /** `_calculate_scanning_list`: extends the list interval by interval. */
  method CalculateScanningList(config: LeConfig) returns (list: seq<SweepPoint>)
    ensures list == MockSweep(config)
  {
    var intervals := Intervals(config);
    var k := |intervals|;
    var share := config.nPoints / k;
    list := [];
    for i := 0 to k
      invariant list == SweepOf(seq(i, _ => share), k == 1)
    {
      ghost var before := seq(i, _ => share);
      ghost var after := seq(i + 1, _ => share);
      assert after[..i] == before;
      list := list + Linspace(i, share, k == 1);
    }
    assert seq(k, _ => share) == EqualCounts(config);
  }

  // ---------------------------------------------------------------------
  // Protocol calls as steps of the mock

  /** `read_until(b"\r").decode("utf-8").strip()` on the mock. */
  function ReplyStep(m: Mock, elapsed: bool): (Result<string>, Mock)
  {
    var (b, next) := ReadUntilStep(m, elapsed);
    match b
    case Err(e) => (Err(e), next)
    case Ok(bytes) =>
      match Utf8(bytes)
      case Err(e) => (Err(e), next)
      case Ok(text) => (Ok(Strip(text)), next)
  }

  /** A write followed by a stripped line read: how every query is asked. */
  function AskStep(m: Mock, input: ByteString, elapsed: bool): (Result<string>, Mock)
  {
    var (w, next) := WriteStep(m, input, elapsed);
    if w.Err? then (Err(w.error), next) else ReplyStep(next, elapsed)
  }

  /** `write_settings` once connected: "S", then the three values packed
      as little-endian uint16 (refused by `struct.pack` when one does not
      fit), each followed by a read; the second reply is returned. */
  function WriteSettingsStep(m: Mock, config: LeConfig, elapsed: bool): (Result<string>, Mock)
  {
    var (ready, next) := AskStep(m, LeV1.SettingsBytes, elapsed);
    if ready.Err? then (Err(ready.error), next)
    else if !AllU16(LeV1.SettingsValues(config)) then (Err(StructError(PackRange)), next)
    else AskStep(next, PackLE16(LeV1.SettingsValues(config)), elapsed)
  }

  /** `write_list` once connected: "L", then the list as float32 words,
      each followed by a read; the second reply is returned. */
  function WriteListStep(m: Mock, words: seq<Word>, elapsed: bool): (Result<string>, Mock)
  {
    var (ready, next) := AskStep(m, LeV1.ListBytes, elapsed);
    if ready.Err? then (Err(ready.error), next)
    else AskStep(next, Flatten(words), elapsed)
  }

  /** `fetch_data` once connected, for a list of `n` entries: "R", one
      read, and the unpacking of exactly `3 n` floats into times, X and Y. */
  function FetchStep(m: Mock, n: nat, elapsed: bool, o: Oracle): (Result<LeV1.ScanTriple>, Mock)
  {
    var (w, m1) := WriteStep(m, LeV1.FetchBytes, elapsed);
    if w.Err? then (Err(w.error), m1)
    else
      var (data, m2) := ReadStep(m1, o);
      match data
      case Err(e) => (Err(e), m2)
      case Ok(bytes) =>
        match LeV1.ScanOf(n, bytes)
        case Ok(t) => (Ok(t), m2)
        case Err(_) => (Err(StructError("unpack requires a buffer of " + NatToString(12 * n) + " bytes")), m2)
  }

  /** `get_serial_number` once connected: "s", then a plain read. */
  function SerialNumberStep(m: Mock, elapsed: bool, o: Oracle): (Result<string>, Mock)
  {
    var (w, m1) := WriteStep(m, SerialNumberBytes, elapsed);
    if w.Err? then (Err(w.error), m1)
    else
      var (data, m2) := ReadStep(m1, o);
      match data
      case Err(e) => (Err(e), m2)
      case Ok(bytes) =>
        match Utf8(bytes)
        case Err(e) => (Err(e), m2)
        case Ok(text) => (Ok(Strip(text)), m2)
  }

  // ---------------------------------------------------------------------
  // What the calls do to a mock

  /** The status V1 asks for is, from IDLE, "ACK: Idle.", and the mock
      stays in IDLE. */
  lemma StatusFromIdle(m: Mock, elapsed: bool)
    requires m.state == Idle && Consistent(m) && !m.emptyResponses
    ensures AskStep(m, LeV1.StatusBytes, elapsed) == (Ok(LeV1.Idle), m)
  {
    IdleQueryStates(m, elapsed);
    var m1 := m.(state := ReceivedStatusRequest);
    assert ReadUntilStep(m1, elapsed) == (Ok(Encode(LeV1.Idle)), m);
    DecodeEncode(LeV1.Idle);
    LeV1.StatusesClean();
    StripClean(LeV1.Idle);
  }

  /** During a scan the status is one of V1's two statuses: "ACK: Idle."
      exactly when the scan has finished; a fault can only be the
      missing-settings one. */
  lemma StatusWhileScanning(m: Mock, elapsed: bool)
    requires m.state == Scanning && Consistent(m) && !m.emptyResponses
    ensures var (r, _) := AskStep(m, LeV1.StatusBytes, elapsed);
      (r.Ok? ==> r.value == LeV1.Idle || r.value == LeV1.Scanning)
      && (r == Ok(LeV1.Idle) <==> ScanFinishedStep(m, elapsed).0 == Ok(true))
      && (r.Err? ==> r.error == ValueError(ScanTimeUnknown))
  {
    ScanningAcceptsStatusAndFetch(m, LeV1.StatusBytes, elapsed);
    var m1 := m.(state := ReceivedStatusRequest);
    assert AskStep(m, LeV1.StatusBytes, elapsed) == ReplyStep(m1, elapsed);
    StatusReplies(m1, elapsed);
    OnlySettingsCanBeMissing(m1, elapsed);
    assert ScanFinishedStep(m1, elapsed).0 == ScanFinishedStep(m, elapsed).0;
    LeV1.StatusesClean();
    assert LeV1.Idle != LeV1.Scanning;
    var r := ReadUntilStep(m1, elapsed).0;
    if r == Ok(Encode(LeV1.Idle)) {
      ReadsAs(m1, elapsed, LeV1.Idle);
    } else if r == Ok(Encode(LeV1.Scanning)) {
      ReadsAs(m1, elapsed, LeV1.Scanning);
    }
  }

  /** Settings written from IDLE are stored exactly as configured, the
      reply is "ACK: Settings received.", and the mock is back in IDLE. */
  lemma SettingsReachMock(m: Mock, config: LeConfig, elapsed: bool)
    requires m.state == Idle && !m.emptyResponses
    requires IsU16(config.nPoints) && IsU16(config.integrationPeriods)
    ensures WriteSettingsStep(m, config, elapsed)
      == (Ok(SettingsReceived), m.(nScanningPoints := Some(config.nPoints),
                                   integrationPeriods := Some(config.integrationPeriods as nat),
                                   useEma := Some(config.useEma)))
  {
    var m1 := m.(state := WaitingForSettings);
    var packed := PackLE16(LeV1.SettingsValues(config));
    var m2 := m1.(nScanningPoints := Some(config.nPoints), integrationPeriods := Some(config.integrationPeriods as nat),
                  useEma := Some(config.useEma), state := ReceivedSettings);
    calc {
      WriteSettingsStep(m, config, elapsed);
      { assert AskStep(m, LeV1.SettingsBytes, elapsed) == (Ok(ReadyForSettings), m1) by {
          IdleCommandStates(m, elapsed);
          AckReplyRead(m1, elapsed);
        }
        assert AllU16(LeV1.SettingsValues(config)); }
      AskStep(m1, packed, elapsed);
      { SettingsStored(m1, config, elapsed); AckReplyRead(m2, elapsed); }
      (Ok(SettingsReceived), m2.(state := Idle));
    }
  }

  /** The list written from IDLE is stored word for word, the reply is
      "ACK: List received.", and the mock is back in IDLE. */
  lemma ListReachesMock(m: Mock, words: seq<Word>, elapsed: bool)
    requires m.state == Idle && !m.emptyResponses
    ensures WriteListStep(m, words, elapsed) == (Ok(ListReceived), m.(scanningList := Some(words)))
  {
    IdleCommandStates(m, elapsed);
    var m1 := m.(state := WaitingForList);
    AckReplyRead(m1, elapsed);
    ListStored(m1, words, elapsed);
    AckReplyRead(m1.(scanningList := Some(words), state := ReceivedList), elapsed);
  }

  /** The stripped reply to a line read in a state with a fixed reply is
      that reply, and the mock moves on as `read_until` says. */
  lemma AckReplyRead(m: Mock, elapsed: bool)
    requires !m.emptyResponses && m.state in {WaitingForSettings, ReceivedSettings, WaitingForList, ReceivedList}
    ensures var (reply, next) := FixedReply(m.state).value;
      ReplyStep(m, elapsed) == (Ok(reply), m.(state := next))
  {
    var (reply, next) := FixedReply(m.state).value;
    assert ReadUntilStep(m, elapsed) == (Ok(Encode(reply)), m.(state := next));
    AcknowledgementsClean();
    ReadsAs(m, elapsed, reply);
  }

  /** A line read that yields a clean ASCII text is that text once decoded
      and stripped. */
  lemma ReadsAs(m: Mock, elapsed: bool, t: Text)
    requires ReadUntilStep(m, elapsed).0 == Ok(Encode(t))
    requires LeV1.Clean(t)
    ensures ReplyStep(m, elapsed) == (Ok(t), ReadUntilStep(m, elapsed).1)
  {
    DecodeEncode(t);
    StripClean(t);
  }

  /** A fetch from IDLE after a list of `n` words was stored returns the
      mock's scan of that list (its times are the scaled list) unless the
      read is one that fails, in which case the empty read is refused by
      the unpacking; either way the read is counted. */
  lemma FetchFromMock(m: Mock, elapsed: bool, o: Oracle)
    requires m.state == Idle && Consistent(m) && m.scanningList.Some? && |m.scanningList.value| > 0
    ensures var n := |m.scanningList.value|;
      var (r, next) := FetchStep(m, n, elapsed, o);
      next.nScans == m.nScans + 1
      && (!Injects(m.nScans + 1, m) ==> r == Ok(MockScan(m.scanningList.value, o)))
      && (Injects(m.nScans + 1, m) ==> r == Err(StructError("unpack requires a buffer of " + NatToString(12 * n) + " bytes")))
  {
    var l := m.scanningList.value;
    IdleSerialAndFetch(m, elapsed);
    LeV1.ScanRoundTrip(|l|, MockScan(l, o), []);
  }

  /** `write_list` followed by `fetch_data` on a mock in IDLE: the fetch
      unpacks the scan of exactly the list that was written, whose times
      are that list scaled, unless this read is one the mock fails. */
  lemma ListThenFetch(m: Mock, list: seq<SweepPoint>, float32: SweepPoint -> Word, elapsed: bool, o: Oracle)
    requires m.state == Idle && Consistent(m) && !m.emptyResponses && |list| > 0
    ensures var words := Floats32(list, float32);
      var (_, m1) := WriteListStep(m, words, elapsed);
      var (r, _) := FetchStep(m1, |list|, elapsed, o);
      (!Injects(m.nScans + 1, m) ==> r == Ok(MockScan(words, o)) && r.value.times == Scaled(words, o))
      && (Injects(m.nScans + 1, m) ==> r.Err? && r.error.StructError?)
  {
    var words := Floats32(list, float32);
    ListReachesMock(m, words, elapsed);
    FetchFromMock(m.(scanningList := Some(words)), elapsed, o);
  }

  // ---------------------------------------------------------------------
  // The protocol object

  /** `MockProtocolV1`: its configuration, the device it is connected to,
      and the scanning list last written. */
  class MockProtocolV1 {
    const kind: Registry.DeviceConfig
    const config: LeConfig
    var device: LeMockDevice?
    var scanningList: Option<seq<SweepPoint>>

    constructor (kind: Registry.DeviceConfig, config: LeConfig)
      ensures this.kind == kind && this.config == config
      ensures device == null && scanningList.None?
    {
      this.kind := kind;
      this.config := config;
      device := null;
      scanningList := None;
    }

    /** `connect`: nothing to do when connected; otherwise the factory's
      mock for the configured port, or the factory's refusal. */
    method Connect() returns (r: Result<()>)
      modifies this
      ensures scanningList == old(scanningList)
      ensures old(device) != null ==> r == Ok(()) && device == old(device)
      ensures old(device) == null ==> match MockFactory(kind, config.ampPort)
        case Ok(m) => r == Ok(()) && device != null && fresh(device) && device.Snapshot() == m
        case Err(e) => r == Err(e) && device == null
    {
      if device != null {
        return Ok(());
      }
      var m :- MockFactory(kind, config.ampPort);
      device := new LeMockDevice(m.failAfter, m.failsWanted, m.emptyResponses, m.instantResponse);
      r := Ok(());
    }

    /** `disconnect`: closes and forgets the device; nothing to do when
        there is none. */
    method Disconnect()
      modifies this
      ensures device == null && scanningList == old(scanningList)
    {
      if device != null {
        device.Close();
        device := null;
      }
    }

    /** `get_status`. */
    method GetStatus(elapsed: bool) returns (r: Result<string>)
      modifies device
      ensures device == null ==> r == Err(RuntimeError(NotConnected))
      ensures device != null ==> (r, device.Snapshot()) == AskStep(old(device.Snapshot()), LeV1.StatusBytes, elapsed)
    {
      if device == null {
        return Err(RuntimeError(NotConnected));
      }
      r := Ask(LeV1.StatusBytes, elapsed);
    }

    /** `get_firmware_version`. */
    method GetFirmwareVersion(elapsed: bool) returns (r: Result<string>)
      modifies device
      ensures device == null ==> r == Err(RuntimeError(NotConnected))
      ensures device != null ==> (r, device.Snapshot()) == AskStep(old(device.Snapshot()), LeV1.FirmwareBytes, elapsed)
    {
      if device == null {
        return Err(RuntimeError(NotConnected));
      }
      r := Ask(LeV1.FirmwareBytes, elapsed);
    }

    /** A write and a stripped line read on the connected device. */
    method Ask(input: ByteString, elapsed: bool) returns (r: Result<string>)
      requires device != null
      modifies device
      ensures (r, device.Snapshot()) == AskStep(old(device.Snapshot()), input, elapsed)
    {
      var w := device.Write(input, elapsed);
      if w.Err? {
        return Err(w.error);
      }
      var b := device.ReadUntil(elapsed);
      if b.Err? {
        return Err(b.error);
      }
      var text :- Utf8(b.value);
      r := Ok(Strip(text));
    }

    /** `write_settings`. */
    method WriteSettings(elapsed: bool) returns (r: Result<string>)
      modifies device
      ensures device == null ==> r == Err(RuntimeError(NotConnected))
      ensures device != null && kind.OtherDevice? ==>
        r == Err(TypeError("MockProtocolV1 only supports LeDeviceConfiguration, got " + kind.typeName))
      ensures device != null && kind.LeDevice? ==>
        (r, device.Snapshot()) == WriteSettingsStep(old(device.Snapshot()), config, elapsed)
    {
      if device == null {
        return Err(RuntimeError(NotConnected));
      }
      if kind.OtherDevice? {
        return Err(TypeError("MockProtocolV1 only supports LeDeviceConfiguration, got " + kind.typeName));
      }
      var ready := Ask(LeV1.SettingsBytes, elapsed);
      if ready.Err? {
        return Err(ready.error);
      }
      var values := LeV1.SettingsValues(config);
      if !AllU16(values) {
        return Err(StructError(PackRange));
      }
      r := Ask(PackLE16(values), elapsed);
    }

    /** `write_list`: the list is computed and remembered before anything is
        written; `float32` is the float32 form of each delay. */
    method WriteList(float32: SweepPoint -> Word, elapsed: bool) returns (r: Result<string>)
      modifies this, device
      ensures device == old(device)
      ensures old(device) == null ==> r == Err(RuntimeError(NotConnected)) && scanningList == old(scanningList)
      ensures old(device) != null && kind.OtherDevice? ==>
        r == Err(TypeError("MockProtocolV1 only supports LeDeviceConfiguration, got " + kind.typeName))
        && scanningList == old(scanningList)
      ensures old(device) != null && kind.LeDevice? ==>
        scanningList == Some(MockSweep(config))
        && (r, device.Snapshot()) == WriteListStep(old(device.Snapshot()), Floats32(MockSweep(config), float32), elapsed)
    {
      if device == null {
        return Err(RuntimeError(NotConnected));
      }
      if kind.OtherDevice? {
        return Err(TypeError("MockProtocolV1 only supports LeDeviceConfiguration, got " + kind.typeName));
      }
      var list := CalculateScanningList(config);
      scanningList := Some(list);
      var ready := Ask(LeV1.ListBytes, elapsed);
      if ready.Err? {
        return Err(ready.error);
      }
      r := Ask(Flatten(Floats32(list, float32)), elapsed);
    }

    /** `fetch_data`. */
    method FetchData(elapsed: bool, o: Oracle) returns (r: Result<LeV1.ScanTriple>)
      modifies device
      ensures device == null ==> r == Err(RuntimeError(NotConnected))
      ensures device != null && scanningList.None? ==> r == Err(RuntimeError(NoListSet)) && device.Snapshot() == old(device.Snapshot())
      ensures device != null && scanningList.Some? ==>
        (r, device.Snapshot()) == FetchStep(old(device.Snapshot()), |scanningList.value|, elapsed, o)
    {
      if device == null {
        return Err(RuntimeError(NotConnected));
      }
      if scanningList.None? {
        return Err(RuntimeError(NoListSet));
      }
      var n := |scanningList.value|;
      var w := device.Write(LeV1.FetchBytes, elapsed);
      if w.Err? {
        return Err(w.error);
      }
      var data := device.Read(12 * n, o);
      if data.Err? {
        return Err(data.error);
      }
      var scan := LeV1.ScanOf(n, data.value);
      if scan.Err? {
        return Err(StructError("unpack requires a buffer of " + NatToString(12 * n) + " bytes"));
      }
      r := Ok(scan.value);
    }

    /** `get_serial_number`. */
    method GetSerialNumber(elapsed: bool, o: Oracle) returns (r: Result<string>)
      modifies device
      ensures device == null ==> r == Err(RuntimeError(NotConnected))
      ensures device != null ==> (r, device.Snapshot()) == SerialNumberStep(old(device.Snapshot()), elapsed, o)
    {
      if device == null {
        return Err(RuntimeError(NotConnected));
      }
      var w := device.Write(SerialNumberBytes, elapsed);
      if w.Err? {
        return Err(w.error);
      }
      var data := device.Read(6, o);
      if data.Err? {
        return Err(data.error);
      }
      var text :- Utf8(data.value);
      r := Ok(Strip(text));
    }
  }
}
