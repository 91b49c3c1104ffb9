/** Protocol version 2 (`LeProtocolV2`): every message is an 8-byte header
    `'A' 'B' 0 version size_hi size_lo instr_hi instr_lo` followed by `size`
    payload bytes. The device answers an error with instruction 0xF000. */
module LeV2 {
  import opened Bytes
  import opened Errors
  import opened SerialPort
  import opened Configuration

  const HeaderSize: nat := 8
  const HeaderPrefix: seq<int> := [0x41, 0x42]
  const ProtocolVersion: int := 1
  /** Read timeout used while receiving a message, in milliseconds. */
  const TimeoutMs: nat := 150

  const InstSysPing: int := 0x0000
  const InstError: int := 0xF000
  const InstReceiverSetFilterCalls: int := 0xA304
  const InstDriverSet: int := 0xA402
  const InstMemorySend: int := 0xA500
  const InstManagerCall: int := 0xA600
  const InstManagerData: int := 0xA601

  const Version: string := "v2"
  const FirmwareVersion: string := "UART-OS V0.1"
  const NotConnected: string := "Device not connected"
  const PingFailed: string := "Device ping failed: "
  /** What `struct.pack(">H", x)` reports for a value outside 0..65535. */
  const PackRangeMsg: string := "'H' format requires 0 <= number <= 65535"

  // ---------------------------------------------------------------------
  // Header codec

  /** The header announcing a payload of `size` bytes carrying `inst`. */
  function Header(size: int, inst: int): (h: ByteString)
    requires IsU16(size) && IsU16(inst)
    ensures |h| == HeaderSize
  {
    HeaderPrefix + [0, ProtocolVersion] + BE16(size) + BE16(inst)
  }

  /** `_build_header`: fills a zeroed 8-byte buffer field by field; a size
      or instruction outside 16 bits makes `struct.pack` fail. */
  method BuildHeader(size: int, inst: int) returns (r: Result<ByteString>)
    ensures IsU16(size) && IsU16(inst) ==> r == Ok(Header(size, inst))
    ensures !(IsU16(size) && IsU16(inst)) ==> r == Err(StructError(PackRangeMsg))
  {
    if !IsU16(size) || !IsU16(inst) {
      return Err(StructError(PackRangeMsg));
    }
    var header := new int[HeaderSize];
    header[0], header[1] := HeaderPrefix[0], HeaderPrefix[1];
    header[2] := 0;
    header[3] := ProtocolVersion;
    var sizeBytes := BE16(size);
    header[4], header[5] := sizeBytes[0], sizeBytes[1];
    var instBytes := BE16(inst);
    header[6], header[7] := instBytes[0], instBytes[1];
    assert header[..] == Header(size, inst);
    r := Ok(header[..]);
  }

  /** `_parse_header`: the payload size and instruction of a header, or a
      ProtocolError naming the first check that fails. */
  function ParseHeader(h: ByteString): (r: Result<(int, int)>)
    ensures r.Ok? ==> IsU16(r.value.0) && IsU16(r.value.1)
    ensures r.Err? ==> r.error.ProtocolError?
  {
    if |h| != HeaderSize then
      Err(ProtocolError("Invalid header size: expected 8, got " + NatToString(|h|)))
    else if h[..2] != HeaderPrefix then
      Err(ProtocolError("Invalid header prefix: expected " + BytesRepr(HeaderPrefix) + ", got " + BytesRepr(h[..2])))
    else if h[2] != 0 then
      Err(ProtocolError("Invalid header byte 2: expected 0, got " + NatToString(h[2])))
    else if h[3] != ProtocolVersion then
      Err(ProtocolError("Invalid protocol version: expected 1, got " + NatToString(h[3])))
    else
      Ok((FromBE16(h[4..6]), FromBE16(h[6..8])))
  }

  /** A header of the right size with the wrong prefix is refused with a
      message that shows the expected `b'AB'` and the two bytes received. */
  lemma BadPrefixMessage(h: ByteString)
    requires |h| == HeaderSize && h[..2] != HeaderPrefix
    ensures ParseHeader(h) == Err(ProtocolError("Invalid header prefix: expected b'AB', got " + BytesRepr(h[..2])))
  {
    PrefixRepr();
  }

  /** The expected prefix as `repr` shows it. */
  lemma PrefixRepr()
    ensures BytesRepr(HeaderPrefix) == "b'AB'"
  {
    PlainRepr(HeaderPrefix);
    assert Decode(HeaderPrefix) == "AB";
  }

  /** Round trip: a built header parses back to its size and instruction. */
  lemma ParseBuiltHeader(size: int, inst: int)
    requires IsU16(size) && IsU16(inst)
    ensures ParseHeader(Header(size, inst)) == Ok((size, inst))
  {
    var h := Header(size, inst);
    assert h[4..6] == BE16(size) && h[6..8] == BE16(inst);
    BE16RoundTrip(size);
    BE16RoundTrip(inst);
  }

  /** The converse: only a built header parses, so parsing loses nothing. */
  lemma ParsedHeaderIsBuilt(h: ByteString)
    requires ParseHeader(h).Ok?
    ensures h == Header(ParseHeader(h).value.0, ParseHeader(h).value.1)
  {
    var (size, inst) := ParseHeader(h).value;
    FromBE16RoundTrip(h[4..6]);
    FromBE16RoundTrip(h[6..8]);
    assert h == h[..2] + [h[2], h[3]] + h[4..6] + h[6..8];
  }

  /** Exactly four things make a header invalid, and each is a ProtocolError. */
  lemma ParseHeaderRejects(h: ByteString)
    ensures ParseHeader(h).Err? <==>
      (|h| != HeaderSize || h[..2] != HeaderPrefix || h[2] != 0 || h[3] != ProtocolVersion)
  {
  }

  // ---------------------------------------------------------------------
  // Framing

  /** The write calls `_send_message` makes for a payload: the header, then
      the payload only when it is non-empty. A payload over 65535 bytes
      cannot be announced. */
  function Frame(payload: ByteString, inst: int): (r: Result<seq<ByteString>>)
    requires IsU16(inst)
    ensures r.Ok? <==> IsU16(|payload|)
    ensures r.Ok? ==> |r.value| == (if payload == [] then 1 else 2)
    ensures r.Ok? ==> r.value[0] == Header(|payload|, inst)
  {
    if !IsU16(|payload|) then Err(StructError(PackRangeMsg))
    else if payload == [] then Ok([Header(0, inst)])
    else Ok([Header(|payload|, inst), payload])
  }

  /** A received message: its payload and instruction. */
  datatype Message = Message(payload: ByteString, inst: int)

  /** What `_receive_message` yields when the device sends `script`, and
      the script that remains. */
  function ReceiveOn(script: seq<ByteString>): (r: (Result<Message>, seq<ByteString>))
    ensures r.0.Ok? ==> IsU16(r.0.value.inst)
  {
    var (header, s1) := ReadOf(script, HeaderSize);
    if |header| != HeaderSize then
      (Err(DeviceComError("Failed to read complete header: expected 8 bytes, got " + NatToString(|header|))), s1)
    else match ParseHeader(header)
      case Err(e) => (Err(e), s1)
      case Ok((size, inst)) =>
        if inst == InstError then
          var (errorPayload, s2) := if size > 0 then ReadOf(s1, size) else ([], s1);
          (Err(DeviceComError("Device error: " + Decode(errorPayload))), s2)
        else if size > 0 then
          var (payload, s2) := ReadOf(s1, size);
          if |payload| != size then
            (Err(DeviceComError("Failed to read complete payload: expected " + NatToString(size)
              + " bytes, got " + NatToString(|payload|))), s2)
          else (Ok(Message(payload, inst)), s2)
        else (Ok(Message([], inst)), s1)
  }

  /** A received message is exactly what its header announced, and never
      the error instruction. */
  lemma ReceivedMatchesHeader(script: seq<ByteString>)
    requires ReceiveOn(script).0.Ok?
    ensures var m := ReceiveOn(script).0.value;
      m.inst != InstError && ParseHeader(ReadOf(script, HeaderSize).0) == Ok((|m.payload|, m.inst))
  {
  }

  /** A device error report is always raised, carrying the report's text. */
  lemma DeviceErrorIsRaised(script: seq<ByteString>)
    requires |ReadOf(script, HeaderSize).0| == HeaderSize
    requires ParseHeader(ReadOf(script, HeaderSize).0).Ok?
    requires ParseHeader(ReadOf(script, HeaderSize).0).value.1 == InstError
    ensures ReceiveOn(script).0.Err?
    ensures ReceiveOn(script).0.error.DeviceComError?
    ensures StartsWith(ReceiveOn(script).0.error.msg, "Device error: ")
  {
    var (header, s1) := ReadOf(script, HeaderSize);
    var size := ParseHeader(header).value.0;
    var (errorPayload, s2) := if size > 0 then ReadOf(s1, size) else ([], s1);
    StartsWithConcat("Device error: ", Decode(errorPayload));
  }

  /** A header cut short by a timeout is a communication error. */
  lemma ShortHeaderIsComError(script: seq<ByteString>)
    requires |ReadOf(script, HeaderSize).0| < HeaderSize
    ensures ReceiveOn(script).0.Err? && ReceiveOn(script).0.error.DeviceComError?
  {
  }

  /** Round trip: a frame sent in one burst is received as the same payload
      and instruction, and nothing after it is touched. */
  lemma ReceiveFrame(payload: ByteString, inst: int, rest: seq<ByteString>)
    requires IsU16(inst) && IsU16(|payload|) && inst != InstError
    ensures ReceiveOn(Then(Header(|payload|, inst) + payload, rest)) == (Ok(Message(payload, inst)), rest)
  {
    var h := Header(|payload|, inst);
    var script := Then(h + payload, rest);
    ParseBuiltHeader(|payload|, inst);
    if payload == [] {
      assert h + payload == h;
      assert ReadOf(script, HeaderSize) == (h, rest);
    } else {
      assert (h + payload)[..HeaderSize] == h;
      assert (h + payload)[HeaderSize..] == payload;
      var s1 := Then(payload, rest);
      assert ReadOf(script, HeaderSize) == (h, s1);
      assert ReadOf(s1, |payload|) == (payload, rest);
    }
  }

  /** What `_ping_device` yields: success only for a ping echo; every
      failure is reported as a DeviceComError. */
  function PingOn(script: seq<ByteString>): (r: (Result<()>, seq<ByteString>))
    ensures r.0.Err? ==> r.0.error.DeviceComError? && StartsWith(r.0.error.msg, PingFailed)
  {
    var (reply, rest) := ReceiveOn(script);
    match reply
      case Err(e) =>
        StartsWithConcat(PingFailed, e.msg);
        (Err(DeviceComError(PingFailed + e.msg)), rest)
      case Ok(Message(_, inst)) =>
        if inst != InstSysPing then
          var why := "Unexpected ping response instruction: expected 0x0000, got " + Hex16(inst);
          StartsWithConcat(PingFailed, why);
          (Err(DeviceComError(PingFailed + why)), rest)
        else (Ok(()), rest)
  }

  /** A ping succeeds exactly when the device answers with a well-formed
      ping frame. */
  lemma PingSucceedsIff(script: seq<ByteString>)
    ensures PingOn(script).0.Ok? <==> (ReceiveOn(script).0.Ok? && ReceiveOn(script).0.value.inst == InstSysPing)
  {
  }

  /** `_receive_message` sets its own timeout and puts back the caller's,
      but only when the caller had one: a blocking port is left with the
      150 ms timeout. */
  function RestoredTimeout(before: Option<nat>): Option<nat>
  {
    if before.Some? then before else Some(TimeoutMs)
  }

  // ---------------------------------------------------------------------
  // Points per interval and the scanning list

  /** `_points_per_interval`: a single interval takes everything; otherwise
      every interval but the last takes its proportional share rounded down
      and the last takes what is left. All intervals of length zero make
      the share a division by zero. */
  function TruncatedSplit(total: nat, lengths: seq<nat>): (r: Result<seq<int>>)
    ensures r.Ok? ==> |r.value| == if lengths == [] then 1 else |lengths|
  {
    if |lengths| <= 1 then Ok([total])
    else if Sum(lengths) == 0 then Err(ZeroDivisionError("float division by zero"))
    else
      SumNonNegative(lengths);
      var shares := Floors(total, lengths[..|lengths| - 1], Sum(lengths));
      Ok(shares + [total - Sum(shares)])
  }

  lemma DivBound(a: nat, b: nat)
    requires b > 0
    ensures b * (a / b) <= a
  {
  }

  /** Rounded-down shares of a prefix never exceed the prefix's exact share. */
  lemma {:induction false} SharesBelowExact(total: nat, lengths: seq<nat>, totalLength: nat)
    requires totalLength > 0
    ensures totalLength * Sum(Floors(total, lengths, totalLength)) <= total * Sum(lengths)
  {
    if lengths != [] {
      var k := |lengths| - 1;
      var shares := Floors(total, lengths, totalLength);
      assert shares[..k] == Floors(total, lengths[..k], totalLength);
      SharesBelowExact(total, lengths[..k], totalLength);
      DivBound(total * lengths[k], totalLength);
      AddBound(totalLength, total, Sum(shares[..k]), Sum(lengths[..k]), shares[k], lengths[k]);
    }
  }

  lemma AddBound(t: int, total: int, sa: int, la: int, s: int, l: int)
    requires t * sa <= total * la && t * s <= total * l
    ensures t * (sa + s) <= total * (la + l)
  {
    assert t * (sa + s) == t * sa + t * s;
    assert total * (la + l) == total * la + total * l;
  }

  lemma SumPrefixBound(lengths: seq<nat>, k: nat)
    requires k <= |lengths|
    ensures Sum(lengths[..k]) <= Sum(lengths)
  {
    if k < |lengths| {
      var n := |lengths| - 1;
      assert lengths[..n][..k] == lengths[..k];
      SumPrefixBound(lengths[..n], k);
      assert lengths[..n] == lengths[..|lengths| - 1];
      SumNonNegative(lengths[..k]);
    } else {
      assert lengths[..k] == lengths;
    }
  }

  lemma MulMonotone(c: nat, a: int, b: int)
    requires a <= b
    ensures c * a <= c * b
  {
  }

  lemma MulCancel(c: int, a: int, b: int)
    requires c > 0 && c * a <= c * b
    ensures a <= b
  {
  }

  /** One more interval adds its rounded-down share at the end. */
  lemma FloorSharesSnoc(total: nat, lengths: seq<nat>, i: nat, totalLength: nat)
    requires totalLength > 0 && i < |lengths|
    ensures Floors(total, lengths[..i + 1], totalLength)
      == Floors(total, lengths[..i], totalLength) + [total * lengths[i] / totalLength]
  {
  }

  /** The shares of all intervals but the last, and the rest for the last. */
  lemma SplitAfterLoop(total: nat, lengths: seq<nat>, points: seq<int>)
    requires |lengths| >= 2 && Sum(lengths) > 0
    requires points == Floors(total, lengths[..|lengths| - 1], Sum(lengths))
    ensures TruncatedSplit(total, lengths) == Ok(points + [total - Sum(points)])
  {
  }

  /** The rounded-down shares of all intervals but the last leave a
      non-negative remainder for the last one. */
  lemma SharesFit(total: nat, lengths: seq<nat>)
    requires |lengths| >= 2 && Sum(lengths) > 0
    ensures Sum(Floors(total, lengths[..|lengths| - 1], Sum(lengths))) <= total
  {
    var k := |lengths| - 1;
    var t := Sum(lengths);
    var shares := Floors(total, lengths[..k], t);
    SharesBelowExact(total, lengths[..k], t);
    SumPrefixBound(lengths, k);
    MulMonotone(total, Sum(lengths[..k]), t);
    assert t * Sum(shares) <= t * total;
    MulCancel(t, Sum(shares), total);
  }

  /** The split hands out exactly `total` points, none negative, and every
      interval but the last gets its rounded-down proportional share. */
  lemma TruncatedSplitSound(total: nat, lengths: seq<nat>)
    requires TruncatedSplit(total, lengths).Ok?
    ensures Sum(TruncatedSplit(total, lengths).value) == total
    ensures forall i :: 0 <= i < |TruncatedSplit(total, lengths).value| ==> TruncatedSplit(total, lengths).value[i] >= 0
    ensures |lengths| >= 2 ==> forall i :: 0 <= i < |lengths| - 1 ==>
      TruncatedSplit(total, lengths).value[i] == total * lengths[i] / Sum(lengths)
  {
    var r := TruncatedSplit(total, lengths).value;
    if |lengths| <= 1 {
      assert r == [total];
      assert r[..0] == [];
    } else {
      var k := |lengths| - 1;
      SumNonNegative(lengths);
      var shares := Floors(total, lengths[..k], Sum(lengths));
      assert r == shares + [total - Sum(shares)];
      assert r[..|r| - 1] == shares;
      SharesFit(total, lengths);
    }
  }

  /** `scanning_list`, computed from the configuration without a connection. */
  function ScanningListOf(config: LeConfig): (r: Result<seq<SweepPoint>>)
  {
    match TruncatedSplit(config.nPoints, Intervals(config))
      case Err(e) => Err(e)
      case Ok(counts) =>
        TruncatedSplitSound(config.nPoints, Intervals(config));
        Ok(Sweep(counts))
  }

  /** The scanning list has one entry per configured point. */
  lemma ScanningListLength(config: LeConfig)
    requires ScanningListOf(config).Ok?
    ensures |ScanningListOf(config).value| == config.nPoints
  {
    var counts := TruncatedSplit(config.nPoints, Intervals(config)).value;
    TruncatedSplitSound(config.nPoints, Intervals(config));
    SweepLength(counts, |counts| == 1);
  }

  // ---------------------------------------------------------------------
  // Replies to the data, serial-number and status requests

  /** `fetch_data`'s result: the delays of the scanning list and the two
      arrays of float32 words the device returns. */
  datatype ScanData = ScanData(times: seq<SweepPoint>, cos: seq<Word>, sin: seq<Word>)

  /** What `fetch_data` yields, before its errors are wrapped, when the
      device answers with `script`: two MANAGER_DATA replies of equally many
      floats, as many as there are scanning points. */
  function FetchOn(config: LeConfig, script: seq<ByteString>): (Result<ScanData>, seq<ByteString>)
  {
    var (cosReply, s1) := ReceiveOn(script);
    if cosReply.Err? then (Err(cosReply.error), s1)
    else if cosReply.value.inst != InstManagerData then
      (Err(ProtocolError("Unexpected cos data instruction: expected 0xa601, got " + Hex16(cosReply.value.inst))), s1)
    else
      var (sinReply, s2) := ReceiveOn(s1);
      if sinReply.Err? then (Err(sinReply.error), s2)
      else if sinReply.value.inst != InstManagerData then
        (Err(ProtocolError("Unexpected sin data instruction: expected 0xa601, got " + Hex16(sinReply.value.inst))), s2)
      else
        var cos := cosReply.value.payload;
        var sin := sinReply.value.payload;
        if |cos| / 4 != |sin| / 4 then
          (Err(ProtocolError("Mismatched array sizes: cos=" + NatToString(|cos| / 4) + ", sin=" + NatToString(|sin| / 4))), s2)
        else if |cos| / 4 != config.nPoints then
          (Err(ProtocolError("Unexpected data size: expected " + NatToString(config.nPoints)
            + " points, got " + NatToString(|cos| / 4))), s2)
        else if |cos| % 4 != 0 then
          (Err(StructError("unpack requires a buffer of " + NatToString(|cos| / 4 * 4) + " bytes")), s2)
        else if |sin| % 4 != 0 then
          (Err(StructError("unpack requires a buffer of " + NatToString(|sin| / 4 * 4) + " bytes")), s2)
        else match ScanningListOf(config)
          case Err(e) => (Err(e), s2)
          case Ok(times) => (Ok(ScanData(times, Words(cos), Words(sin))), s2)
  }

  /** `fetch_data` succeeds exactly when both replies are MANAGER_DATA
      messages of 4 * n_points bytes (and the scanning list exists). */
  lemma FetchSucceedsIff(config: LeConfig, script: seq<ByteString>)
    ensures var (cosReply, s1) := ReceiveOn(script);
      var sinReply := ReceiveOn(s1).0;
      FetchOn(config, script).0.Ok? <==>
        (cosReply.Ok? && cosReply.value.inst == InstManagerData
        && sinReply.Ok? && sinReply.value.inst == InstManagerData
        && |cosReply.value.payload| == 4 * config.nPoints
        && |sinReply.value.payload| == 4 * config.nPoints
        && ScanningListOf(config).Ok?)
  {
    var (cosReply, s1) := ReceiveOn(script);
    var sinReply := ReceiveOn(s1).0;
    if cosReply.Ok? && sinReply.Ok? {
      WholeWords(|cosReply.value.payload|, config.nPoints);
      WholeWords(|sinReply.value.payload|, config.nPoints);
    }
  }

  /** A buffer holds exactly `n` whole 4-byte words when it is `4n` bytes long. */
  lemma WholeWords(len: nat, n: nat)
    ensures (len / 4 == n && len % 4 == 0) <==> len == 4 * n
  {
  }

  /** On success the delays are the scanning list and each array holds one
      float per scanning point, word for word as the device sent it. */
  lemma FetchedData(config: LeConfig, script: seq<ByteString>)
    requires FetchOn(config, script).0.Ok?
    ensures var d := FetchOn(config, script).0.value;
      var (cosReply, s1) := ReceiveOn(script);
      d.times == ScanningListOf(config).value
      && |d.times| == |d.cos| == |d.sin| == config.nPoints
      && Flatten(d.cos) == cosReply.value.payload
      && Flatten(d.sin) == ReceiveOn(s1).0.value.payload
  {
    var (cosReply, s1) := ReceiveOn(script);
    FlattenWords(cosReply.value.payload);
    FlattenWords(ReceiveOn(s1).0.value.payload);
    ScanningListLength(config);
  }

  lemma FetchOfReplies(config: LeConfig, script: seq<ByteString>, cos: ByteString, sin: ByteString,
                        s1: seq<ByteString>, s2: seq<ByteString>)
    requires ReceiveOn(script) == (Ok(Message(cos, InstManagerData)), s1)
    requires ReceiveOn(s1) == (Ok(Message(sin, InstManagerData)), s2)
    requires |cos| == |sin| == 4 * config.nPoints && ScanningListOf(config).Ok?
    ensures FetchOn(config, script).0 == Ok(ScanData(ScanningListOf(config).value, Words(cos), Words(sin)))
    ensures FetchOn(config, script).1 == s2
  {
  }

  /** A device that answers with two well-formed data frames is read back
      exactly. */
  lemma FetchWellFormed(config: LeConfig, cos: seq<Word>, sin: seq<Word>, rest: seq<ByteString>)
    requires |cos| == |sin| == config.nPoints && 4 * config.nPoints < 0x1_0000
    requires ScanningListOf(config).Ok?
    ensures var script := Then(Header(4 * |cos|, InstManagerData) + Flatten(cos),
                               Then(Header(4 * |sin|, InstManagerData) + Flatten(sin), rest));
      FetchOn(config, script).0 == Ok(ScanData(ScanningListOf(config).value, cos, sin))
      && FetchOn(config, script).1 == rest
  {
    var c := Flatten(cos);
    var sn := Flatten(sin);
    var second := Then(Header(|sn|, InstManagerData) + sn, rest);
    var script := Then(Header(|c|, InstManagerData) + c, second);
    ReceiveFrame(c, InstManagerData, second);
    ReceiveFrame(sn, InstManagerData, rest);
    FetchOfReplies(config, script, c, sn, second, rest);
    WordsFlatten(cos);
    WordsFlatten(sin);
  }

  /** What `get_serial_number` yields before wrapping: the MEMORY_SEND
      payload as text, trailing NUL padding removed. */
  function SerialNumberOn(script: seq<ByteString>): (r: (Result<string>, seq<ByteString>))
    ensures r.0.Ok? ==> ReceiveOn(script).0.Ok? && ReceiveOn(script).0.value.inst == InstMemorySend
    ensures r.0.Ok? ==> r.0.value == [] || r.0.value[|r.0.value| - 1] != 0 as char
  {
    var (reply, rest) := ReceiveOn(script);
    match reply
      case Err(e) => (Err(e), rest)
      case Ok(m) =>
        if m.inst != InstMemorySend then
          (Err(ProtocolError("Unexpected serial number instruction: expected 0xa500, got " + Hex16(m.inst))), rest)
        else (Ok(RStrip(Decode(m.payload), 0 as char)), rest)
  }

  /** NUL bytes that pad a serial number to its field. */
  function NulPadding(k: nat): (r: ByteString)
    ensures |r| == k
  {
    seq(k, _ => 0)
  }

  /** Stripping NULs from text padded with NULs gives the text back, when
      the text does not end in NUL itself. */
  lemma {:induction false} StripPadding(sn: string, k: nat)
    requires sn == [] || sn[|sn| - 1] != 0 as char
    ensures RStrip(sn + seq(k, _ => 0 as char), 0 as char) == sn
  {
    var s := sn + seq(k, _ => 0 as char);
    if k > 0 {
      assert s[..|s| - 1] == sn + seq(k - 1, _ => 0 as char);
      StripPadding(sn, k - 1);
    } else {
      assert s == sn;
    }
  }

  /** A device that answers with its serial number padded by NULs in a
      MEMORY_SEND frame gives that serial number, and only the frame is
      consumed. */
  lemma SerialNumberOfFrame(sn: Text, k: nat, rest: seq<ByteString>)
    requires sn == [] || sn[|sn| - 1] != 0 as char
    requires |sn| + k < 0x1_0000
    ensures var payload := Encode(sn) + NulPadding(k);
      SerialNumberOn(Then(Header(|payload|, InstMemorySend) + payload, rest)) == (Ok(sn), rest)
  {
    var payload := Encode(sn) + NulPadding(k);
    ReceiveFrame(payload, InstMemorySend, rest);
    assert Decode(payload) == sn + seq(k, _ => 0 as char) by {
      DecodeEncode(sn);
      assert Decode(payload) == Decode(Encode(sn)) + Decode(NulPadding(k));
    }
    StripPadding(sn, k);
  }

  // ---------------------------------------------------------------------
  // The protocol object

  const SettingsFailed: string := "Failed to write settings: "
  const ListFailed: string := "Failed to write scanning list: "
  const FetchFailed: string := "Failed to fetch scan data: "
  const SerialFailed: string := "Failed to get serial number: "
  const ScanFailed: string := "Failed to start scan: "
  const ConnectFailed: string := "Failed to connect to device: "

  /** `LeProtocolV2`: its connection state is the serial port it holds,
      `null` when disconnected. */
  class LeProtocolV2 {
    const config: LeConfig
    var ser: Serial?

    constructor (config: LeConfig)
      ensures this.config == config && ser == null
    {
      this.config := config;
      ser := null;
    }

    /** `_points_per_interval`: accumulates the rounded-down shares of all
        intervals but the last, then gives the last what is left. */
    method PointsPerInterval(total: nat, lengths: seq<nat>) returns (r: Result<seq<int>>)
      ensures r == TruncatedSplit(total, lengths)
    {
      if |lengths| == 1 {
        return Ok([total]);
      }
      var totalSize := Sum(lengths);
      SumNonNegative(lengths);
      var points: seq<int> := [];
      var handedOut := 0;
      var i := 0;
      while i + 1 < |lengths|
        invariant i == 0 || i < |lengths|
        invariant totalSize > 0 ==> points == Floors(total, lengths[..i], totalSize)
        invariant totalSize == 0 ==> i == 0 && points == []
        invariant handedOut == Sum(points)
      {
        if totalSize == 0 {
          assert TruncatedSplit(total, lengths) == Err(ZeroDivisionError("float division by zero"));
          return Err(ZeroDivisionError("float division by zero"));
        }
        var share := total * lengths[i] / totalSize;
        FloorSharesSnoc(total, lengths, i, totalSize);
        SumSnoc(points, share);
        points := points + [share];
        handedOut := handedOut + share;
        i := i + 1;
      }
      if |lengths| >= 2 {
        assert i == |lengths| - 1 && totalSize > 0;
        SplitAfterLoop(total, lengths, points);
      } else {
        assert points + [total - handedOut] == [total];
      }
      r := Ok(points + [total - handedOut]);
    }

    /** `scanning_list`: the linspace of each interval, in interval order. */
    method ScanningList() returns (r: Result<seq<SweepPoint>>)
      ensures r == ScanningListOf(config)
    {
      var intervals := Intervals(config);
      var split :- PointsPerInterval(config.nPoints, intervals);
      TruncatedSplitSound(config.nPoints, intervals);
      var counts: seq<nat> := split;
      var endpoint := |intervals| == 1;
      var list: seq<SweepPoint> := [];
      for i := 0 to |intervals|
        invariant list == SweepOf(counts[..i], endpoint)
      {
        assert counts[..i + 1][..i] == counts[..i];
        list := list + Linspace(i, counts[i], endpoint);
      }
      assert counts[..|intervals|] == counts;
      r := Ok(list);
    }

    /** `bytes_to_receive`: one float array per reply. */
    function BytesToReceive(): (n: nat)
      ensures n == 4 * config.nPoints
    {
      config.nPoints * 4
    }

    /** `_send_message`: header, then the payload when there is one. */
    method SendMessage(payload: ByteString, inst: int) returns (r: Result<()>)
      requires IsU16(inst)
      modifies ser
      ensures ser == null ==> r == Err(DeviceComError(NotConnected))
      ensures ser != null ==> ser.script == old(ser.script) && ser.timeout == old(ser.timeout) && ser.isOpen == old(ser.isOpen)
      ensures ser != null ==> match Frame(payload, inst)
        case Ok(writes) => r == Ok(()) && ser.written == old(ser.written) + writes
        case Err(e) => r == Err(e) && ser.written == old(ser.written)
    {
      if ser == null {
        return Err(DeviceComError(NotConnected));
      }
      var header :- BuildHeader(|payload|, inst);
      ser.Write(header);
      if payload != [] {
        ser.Write(payload);
      }
      r := Ok(());
    }

    /** `_receive_message`: reads a header and the payload it announces
        under the protocol's own timeout, then restores the caller's. */
    method ReceiveMessage() returns (r: Result<Message>)
      modifies ser
      ensures ser == null ==> r == Err(DeviceComError(NotConnected))
      ensures ser != null ==> (r, ser.script) == ReceiveOn(old(ser.script))
      ensures ser != null ==> ser.written == old(ser.written) && ser.isOpen == old(ser.isOpen)
      ensures ser != null ==> ser.timeout == RestoredTimeout(old(ser.timeout))
    {
      if ser == null {
        return Err(DeviceComError(NotConnected));
      }
      var original := ser.timeout;
      ser.SetTimeout(Some(TimeoutMs));
      var header := ser.Read(HeaderSize);
      if |header| != HeaderSize {
        r := Err(DeviceComError("Failed to read complete header: expected 8 bytes, got " + NatToString(|header|)));
      } else {
        var parsed := ParseHeader(header);
        if parsed.Err? {
          r := Err(parsed.error);
        } else {
          var (size, inst) := parsed.value;
          if inst == InstError {
            var errorPayload: ByteString := [];
            if size > 0 {
              errorPayload := ser.Read(size);
            }
            r := Err(DeviceComError("Device error: " + Decode(errorPayload)));
          } else if size > 0 {
            var payload := ser.Read(size);
            if |payload| != size {
              r := Err(DeviceComError("Failed to read complete payload: expected " + NatToString(size)
                + " bytes, got " + NatToString(|payload|)));
            } else {
              r := Ok(Message(payload, inst));
            }
          } else {
            r := Ok(Message([], inst));
          }
        }
      }
      if original.Some? {
        ser.SetTimeout(original);
      }
    }

    /** `_ping_device`: an empty PING frame, answered by a PING frame. */
    method PingDevice() returns (r: Result<()>)
      modifies ser
      ensures ser == null ==> r == Err(DeviceComError(PingFailed + NotConnected))
      ensures ser != null ==> (r, ser.script) == PingOn(old(ser.script))
      ensures ser != null ==> ser.written == old(ser.written) + [Header(0, InstSysPing)]
      ensures ser != null ==> ser.isOpen == old(ser.isOpen) && ser.timeout == RestoredTimeout(old(ser.timeout))
    {
      var sent := SendMessage([], InstSysPing);
      if sent.Err? {
        return Err(DeviceComError(PingFailed + sent.error.msg));
      }
      var reply := ReceiveMessage();
      match reply {
        case Err(e) =>
          r := Err(DeviceComError(PingFailed + e.msg));
        case Ok(m) =>
          if m.inst != InstSysPing {
            var why := "Unexpected ping response instruction: expected 0x0000, got " + Hex16(m.inst);
            r := Err(DeviceComError(PingFailed + why));
          } else {
            r := Ok(());
          }
      }
    }

    /** `connect`: a no-op when connected; otherwise takes the port the
        factory port (or the error opening it raised) and pings through it.
        Any failure closes the port, forgets it and is reported as a
        DeviceComError. */
    method Connect(port: Result<Serial>) returns (r: Result<()>)
      modifies this, (if port.Ok? then {port.value} else {})
      ensures old(ser) != null ==> r == Ok(()) && ser == old(ser)
      ensures old(ser) != null && port.Ok? ==> unchanged(port.value)
      ensures old(ser) == null && port.Err? ==>
        ser == null && r == Err(DeviceComError(ConnectFailed + port.error.msg))
      ensures old(ser) == null && port.Ok? ==>
        var s := port.value;
        var (ping, rest) := PingOn(old(s.script));
        s.written == old(s.written) + [Header(0, InstSysPing)] && s.script == rest
        && s.timeout == RestoredTimeout(old(s.timeout))
        && (ping.Ok? ==> ser == s && r == Ok(()) && s.isOpen == old(s.isOpen))
        && (ping.Err? ==> ser == null && !s.isOpen && r == Err(DeviceComError(ConnectFailed + ping.error.msg)))
    {
      if ser != null {
        return Ok(());
      }
      if port.Err? {
        return Err(DeviceComError(ConnectFailed + port.error.msg));
      }
      ser := port.value;
      var ping := PingDevice();
      if ping.Err? {
        ser.Close();
        ser := null;
        return Err(DeviceComError(ConnectFailed + ping.error.msg));
      }
      r := Ok(());
    }

    /** `disconnect`: closes and forgets the port; nothing to do when
        already disconnected. */
    method Disconnect()
      modifies this, ser
      ensures ser == null
      ensures old(ser) != null ==> !old(ser).isOpen && old(ser).script == old(ser.script) && old(ser).written == old(ser.written)
    {
      if ser != null {
        ser.Close();
        ser := null;
      }
    }

    /** `write_settings`: integration periods as one little-endian uint16
        under RECEIVER_SET_FILTER_CALLS; the device sends no reply. */
    method WriteSettings() returns (r: Result<string>)
      modifies ser
      ensures ser != null ==> ser.script == old(ser.script) && ser.isOpen == old(ser.isOpen) && ser.timeout == old(ser.timeout)
      ensures r.Ok? <==> ser != null && IsU16(config.integrationPeriods)
      ensures r.Ok? ==> (IsU16(config.integrationPeriods)
        && r.value == "Settings written: integration_periods=" + NatToString(config.integrationPeriods)
        && ser.written == old(ser.written) + [Header(2, InstReceiverSetFilterCalls), LE16(config.integrationPeriods)])
      ensures r.Err? ==> r.error.DeviceComError? && StartsWith(r.error.msg, SettingsFailed)
      ensures r.Err? && ser != null ==> ser.written == old(ser.written)
    {
      var periods := config.integrationPeriods;
      if !IsU16(periods) {
        StartsWithConcat(SettingsFailed, PackRangeMsg);
        return Err(DeviceComError(SettingsFailed + PackRangeMsg));
      }
      var sent := SendMessage(LE16(periods), InstReceiverSetFilterCalls);
      if sent.Err? {
        StartsWithConcat(SettingsFailed, sent.error.msg);
        return Err(DeviceComError(SettingsFailed + sent.error.msg));
      }
      r := Ok("Settings written: integration_periods=" + NatToString(periods));
    }

    /** `write_list`: every scanning-list delay as a little-endian float32,
        in one DRIVER_SET message. */
    method WriteList(float32: SweepPoint -> Word) returns (r: Result<string>)
      modifies ser
      ensures ser != null ==> ser.script == old(ser.script) && ser.isOpen == old(ser.isOpen) && ser.timeout == old(ser.timeout)
      ensures r.Ok? <==> (ser != null && ScanningListOf(config).Ok?
        && IsU16(4 * |ScanningListOf(config).value|))
      ensures r.Ok? ==>
        var list := ScanningListOf(config).value;
        r.value == "Scanning list written: " + NatToString(|list|) + " points"
        && ser.written == old(ser.written) + Frame(Flatten(Floats32(list, float32)), InstDriverSet).value
      ensures r.Err? ==> r.error.DeviceComError? && StartsWith(r.error.msg, ListFailed)
      ensures r.Err? && ser != null ==> ser.written == old(ser.written)
    {
      var listed := ScanningList();
      if listed.Err? {
        StartsWithConcat(ListFailed, listed.error.msg);
        return Err(DeviceComError(ListFailed + listed.error.msg));
      }
      var list := listed.value;
      var payload := Flatten(Floats32(list, float32));
      var sent := SendMessage(payload, InstDriverSet);
      if sent.Err? {
        StartsWithConcat(ListFailed, sent.error.msg);
        return Err(DeviceComError(ListFailed + sent.error.msg));
      }
      r := Ok("Scanning list written: " + NatToString(|list|) + " points");
    }

    /** `fetch_data`: one MANAGER_DATA request, two replies. */
    method FetchData() returns (r: Result<ScanData>)
      modifies ser
      ensures ser == null ==> r == Err(DeviceComError(FetchFailed + NotConnected))
      ensures ser != null ==> ser.written == old(ser.written) + [Header(0, InstManagerData)]
      ensures ser != null ==> ser.script == FetchOn(config, old(ser.script)).1 && ser.isOpen == old(ser.isOpen)
      ensures ser != null ==> match FetchOn(config, old(ser.script)).0
        case Ok(d) => r == Ok(d)
        case Err(e) => r == Err(DeviceComError(FetchFailed + e.msg))
    {
      var sent := SendMessage([], InstManagerData);
      if sent.Err? {
        return Err(DeviceComError(FetchFailed + sent.error.msg));
      }
      var cosReply := ReceiveMessage();
      if cosReply.Err? {
        return Err(DeviceComError(FetchFailed + cosReply.error.msg));
      }
      if cosReply.value.inst != InstManagerData {
        var e := ProtocolError("Unexpected cos data instruction: expected 0xa601, got " + Hex16(cosReply.value.inst));
        return Err(DeviceComError(FetchFailed + e.msg));
      }
      var sinReply := ReceiveMessage();
      if sinReply.Err? {
        return Err(DeviceComError(FetchFailed + sinReply.error.msg));
      }
      if sinReply.value.inst != InstManagerData {
        var e := ProtocolError("Unexpected sin data instruction: expected 0xa601, got " + Hex16(sinReply.value.inst));
        return Err(DeviceComError(FetchFailed + e.msg));
      }
      var cos := cosReply.value.payload;
      var sin := sinReply.value.payload;
      var nCos := |cos| / 4;
      var nSin := |sin| / 4;
      if nCos != nSin {
        var e := ProtocolError("Mismatched array sizes: cos=" + NatToString(nCos) + ", sin=" + NatToString(nSin));
        return Err(DeviceComError(FetchFailed + e.msg));
      }
      if nCos != config.nPoints {
        var e := ProtocolError("Unexpected data size: expected " + NatToString(config.nPoints)
          + " points, got " + NatToString(nCos));
        return Err(DeviceComError(FetchFailed + e.msg));
      }
      if |cos| % 4 != 0 {
        var e := StructError("unpack requires a buffer of " + NatToString(nCos * 4) + " bytes");
        return Err(DeviceComError(FetchFailed + e.msg));
      }
      if |sin| % 4 != 0 {
        var e := StructError("unpack requires a buffer of " + NatToString(nSin * 4) + " bytes");
        return Err(DeviceComError(FetchFailed + e.msg));
      }
      var times := ScanningList();
      if times.Err? {
        return Err(DeviceComError(FetchFailed + times.error.msg));
      }
      r := Ok(ScanData(times.value, Words(cos), Words(sin)));
    }

    /** `start_scan`: MANAGER_CALL with no payload, then `fetch_data`. The
        conversion of the two arrays to radii and angles is not modelled. */
    method StartScan() returns (r: Result<ScanData>)
      modifies ser
      ensures ser == null ==> r == Err(DeviceComError(ScanFailed + NotConnected))
      ensures ser != null ==> ser.written == old(ser.written) + [Header(0, InstManagerCall), Header(0, InstManagerData)]
      ensures ser != null ==> ser.script == FetchOn(config, old(ser.script)).1
      ensures ser != null ==> match FetchOn(config, old(ser.script)).0
        case Ok(d) => r == Ok(d)
        case Err(e) => r == Err(DeviceComError(ScanFailed + (FetchFailed + e.msg)))
    {
      var sent := SendMessage([], InstManagerCall);
      if sent.Err? {
        return Err(DeviceComError(ScanFailed + sent.error.msg));
      }
      var data := FetchData();
      if data.Err? {
        return Err(DeviceComError(ScanFailed + data.error.msg));
      }
      r := data;
    }

    /** `get_serial_number`: a MEMORY_SEND request answered by MEMORY_SEND. */
    method GetSerialNumber() returns (r: Result<string>)
      modifies ser
      ensures ser == null ==> r == Err(DeviceComError(SerialFailed + NotConnected))
      ensures ser != null ==> ser.written == old(ser.written) + [Header(0, InstMemorySend)]
      ensures ser != null ==> ser.script == SerialNumberOn(old(ser.script)).1
      ensures ser != null ==> match SerialNumberOn(old(ser.script)).0
        case Ok(sn) => r == Ok(sn)
        case Err(e) => r == Err(DeviceComError(SerialFailed + e.msg))
    {
      var sent := SendMessage([], InstMemorySend);
      if sent.Err? {
        return Err(DeviceComError(SerialFailed + sent.error.msg));
      }
      var reply := ReceiveMessage();
      if reply.Err? {
        return Err(DeviceComError(SerialFailed + reply.error.msg));
      }
      if reply.value.inst != InstMemorySend {
        var e := ProtocolError("Unexpected serial number instruction: expected 0xa500, got " + Hex16(reply.value.inst));
        return Err(DeviceComError(SerialFailed + e.msg));
      }
      r := Ok(RStrip(Decode(reply.value.payload), 0 as char));
    }

    /** `get_status`: "IDLE" when a ping gets through, "UNKNOWN" when it
        fails; a failed ping is never raised. */
    method GetStatus() returns (status: string)
      modifies ser
      ensures ser == null ==> status == "UNKNOWN"
      ensures ser != null ==> status == (if PingOn(old(ser.script)).0.Ok? then "IDLE" else "UNKNOWN")
      ensures ser != null ==> ser.script == PingOn(old(ser.script)).1
      ensures ser != null ==> ser.written == old(ser.written) + [Header(0, InstSysPing)]
    {
      var ping := PingDevice();
      if ping.Err? {
        assert ping.error.DeviceComError?;
        return "UNKNOWN";
      }
      status := "IDLE";
    }

    /** `get_firmware_version`: a constant; V2 asks the device nothing. */
    function GetFirmwareVersion(): (v: string)
      ensures v == FirmwareVersion
    {
      FirmwareVersion
    }
  }
}
