/** The protocol registry and the Le version negotiator: a table from
    device type to version to protocol class, a register operation, and the
    search that tries the Le versions newest first.

    Python dictionaries keep insertion order, and that order shows in
    `list_supported_versions` and in the error messages, so each dictionary
    is an association list: assigning to a present key keeps its place, a new
    key goes at the end.

    How a candidate fares against the attached device (whether its `connect`
    and its verification command succeed, and with which error) is not
    computed here: it is a `Probe` the caller supplies per version. */
module Registry {
  import opened Errors

  // ---------------------------------------------------------------------
  // Insertion-ordered dictionaries

  function Keys<V>(d: seq<(string, V)>): (r: seq<string>)
    ensures |r| == |d| && forall i :: 0 <= i < |d| ==> r[i] == d[i].0
  {
    if d == [] then [] else [d[0].0] + Keys(d[1..])
  }

  predicate DistinctKeys<V>(d: seq<(string, V)>)
  {
    d == [] || (d[0].0 !in Keys(d[1..]) && DistinctKeys(d[1..]))
  }

  /** `d.get(k)`. */
  function Lookup<V>(d: seq<(string, V)>, k: string): (r: Option<V>)
    ensures r.Some? <==> k in Keys(d)
    ensures r.Some? ==> (k, r.value) in d
  {
    if d == [] then None
    else if d[0].0 == k then Some(d[0].1)
    else Lookup(d[1..], k)
  }

  /** `d[k] = v`: in place when `k` is present, appended otherwise. */
  function Put<V>(d: seq<(string, V)>, k: string, v: V): (r: seq<(string, V)>)
    ensures Lookup(r, k) == Some(v)
    ensures forall k' :: k' != k ==> Lookup(r, k') == Lookup(d, k')
    decreases |d|
  {
    if d == [] then [(k, v)]
    else if d[0].0 == k then [(k, v)] + d[1..]
    else [d[0]] + Put(d[1..], k, v)
  }

  /** Assigning keeps the key order, and a new key comes last. */
  lemma {:induction false} PutKeys<V>(d: seq<(string, V)>, k: string, v: V)
    ensures Keys(Put(d, k, v)) == if k in Keys(d) then Keys(d) else Keys(d) + [k]
  {
    if d != [] {
      var t := d[1..];
      KeysCons(d);
      if d[0].0 != k {
        var rest := if k in Keys(t) then Keys(t) else Keys(t) + [k];
        calc {
          Keys(Put(d, k, v));
          { PutBehind(d, k, v); KeysCons(Put(d, k, v)); }
          [d[0].0] + Keys(Put(t, k, v));
          { PutKeys(t, k, v); }
          [d[0].0] + rest;
          { assert k in Keys(d) <==> k in Keys(t);
            assert [d[0].0] + (Keys(t) + [k]) == Keys(d) + [k]; }
          if k in Keys(d) then Keys(d) else Keys(d) + [k];
        }
      } else {
        assert Put(d, k, v) == [(k, v)] + t;
        KeysCons(Put(d, k, v));
      }
    }
  }

  lemma KeysCons<V>(d: seq<(string, V)>)
    requires d != []
    ensures Keys(d) == [d[0].0] + Keys(d[1..])
  {
  }

  lemma PutBehind<V>(d: seq<(string, V)>, k: string, v: V)
    requires d != [] && d[0].0 != k
    ensures Put(d, k, v) != [] && Put(d, k, v)[0] == d[0] && Put(d, k, v)[1..] == Put(d[1..], k, v)
  {
    assert Put(d, k, v) == [d[0]] + Put(d[1..], k, v);
  }

  /** Assigning keeps the keys distinct. */
  lemma {:induction false} PutDistinct<V>(d: seq<(string, V)>, k: string, v: V)
    requires DistinctKeys(d)
    ensures DistinctKeys(Put(d, k, v))
  {
    if d != [] {
      var r := Put(d, k, v);
      if d[0].0 != k {
        PutDistinct(d[1..], k, v);
        PutKeys(d[1..], k, v);
        assert r[1..] == Put(d[1..], k, v);
      } else {
        assert r[1..] == d[1..];
      }
    }
  }

  /** A second assignment to the same key overrides the first. */
  lemma {:induction false} PutPut<V>(d: seq<(string, V)>, k: string, v: V, w: V)
    ensures Put(Put(d, k, v), k, w) == Put(d, k, w)
  {
    if d != [] && d[0].0 != k {
      PutPut(d[1..], k, v, w);
      assert Put(d, k, v)[1..] == Put(d[1..], k, v);
    }
  }

  /** Python's `repr` of a list of strings: `['v2', 'v1']`. */
  function ListRepr(xs: seq<string>): (r: string)
    ensures |r| >= 2 && r[0] == '[' && r[|r| - 1] == ']'
    ensures xs == [] <==> r == "[]"
  {
    "[" + JoinQuoted(xs) + "]"
  }

  function JoinQuoted(xs: seq<string>): string
  {
    if xs == [] then ""
    else if |xs| == 1 then "'" + xs[0] + "'"
    else "'" + xs[0] + "', " + JoinQuoted(xs[1..])
  }

  /** Each element is quoted, and all but the first follow a comma and a
      space: one more element shows as `'y'` just before the bracket. */
  lemma ListReprSnoc(xs: seq<string>, y: string)
    ensures ListRepr(xs + [y]) == ListRepr(xs)[..|ListRepr(xs)| - 1] + (if xs == [] then "" else ", ") + "'" + y + "']"
  {
    JoinQuotedSnoc(xs, y);
  }

  lemma {:induction false} JoinQuotedSnoc(xs: seq<string>, y: string)
    ensures JoinQuoted(xs + [y]) == JoinQuoted(xs) + (if xs == [] then "" else ", ") + "'" + y + "'"
  {
    if |xs| == 1 {
      assert (xs + [y])[1..] == [y];
    } else if |xs| > 1 {
      assert (xs + [y])[1..] == xs[1..] + [y];
      JoinQuotedSnoc(xs[1..], y);
    }
  }

  // ---------------------------------------------------------------------
  // Protocol classes and configurations

  /** The classes a registry can hold: the two Le protocols, or another
      class, with its `protocol_version` and whether it has `_ping_device`. */
  datatype ProtocolClass =
    | LeV1Class
    | LeV2Class
    | OtherClass(name: string, version: string, hasPing: bool)

  /** The class attribute `protocol_version`. */
  function VersionAttribute(c: ProtocolClass): (v: string)
    ensures c.LeV1Class? ==> v == "v1"
    ensures c.LeV2Class? ==> v == "v2"
  {
    match c
    case LeV1Class => "v1"
    case LeV2Class => "v2"
    case OtherClass(_, version, _) => version
  }

  function HasPing(c: ProtocolClass): bool
  {
    c.LeV2Class? || (c.OtherClass? && c.hasPing)
  }

  /** A device configuration: an Le configuration, or one of another type. */
  datatype DeviceConfig = LeDevice | OtherDevice(typeName: string)

  type Table = seq<(string, seq<(string, ProtocolClass)>)>

  /** The registry as the package defines it: "Le" with v1 then v2. */
  const InitialTable: Table := [("Le", [("v1", LeV1Class), ("v2", LeV2Class)])]

  /** Le versions in preference order, newest first. */
  const SupportedLe: seq<string> := ["v2", "v1"]

  /** `PROTOCOL_REGISTRY.get("Le", {})`. */
  function LeEntries(t: Table): (r: seq<(string, ProtocolClass)>)
    ensures Lookup(t, "Le").Some? ==> r == Lookup(t, "Le").value
    ensures Lookup(t, "Le").None? ==> r == []
  {
    match Lookup(t, "Le")
    case Some(le) => le
    case None => []
  }

  /** `register_protocol` on table `t`. */
  function Registered(t: Table, deviceType: string, version: string, c: ProtocolClass): (r: Table)
  {
    var inner := match Lookup(t, deviceType) case Some(d) => d case None => [];
    Put(t, deviceType, Put(inner, version, c))
  }

  /** Registering sets exactly the `(deviceType, version)` entry: every
      other version of that type and every other type stay as they were. */
  lemma RegisteredSets(t: Table, deviceType: string, version: string, c: ProtocolClass)
    ensures var r := Registered(t, deviceType, version, c);
      Lookup(r, deviceType).Some? && Lookup(Lookup(r, deviceType).value, version) == Some(c)
      && (forall v :: v != version && Lookup(t, deviceType).Some? ==>
            Lookup(Lookup(r, deviceType).value, v) == Lookup(Lookup(t, deviceType).value, v))
      && (forall v :: v != version && Lookup(t, deviceType).None? ==>
            Lookup(Lookup(r, deviceType).value, v).None?)
      && (forall d :: d != deviceType ==> Lookup(r, d) == Lookup(t, d))
  {
  }

  /** Registering keeps the order of device types and of versions, a new
      one coming last, and keeps keys distinct. */
  lemma RegisteredOrder(t: Table, deviceType: string, version: string, c: ProtocolClass)
    requires DistinctKeys(t)
    ensures var r := Registered(t, deviceType, version, c);
      DistinctKeys(r)
      && Keys(r) == (if deviceType in Keys(t) then Keys(t) else Keys(t) + [deviceType])
  {
    var inner := match Lookup(t, deviceType) case Some(d) => d case None => [];
    PutKeys(t, deviceType, Put(inner, version, c));
    PutDistinct(t, deviceType, Put(inner, version, c));
  }

  // ---------------------------------------------------------------------
  // Trying one version

  /** How one candidate fares against the attached device: the outcome of
      its `connect()` and of its verification command. */
  datatype Probe = Probe(connect: Result<()>, verify: Result<()>)

  /** The verification `_try_le_protocol_version` runs after connecting:
      `get_status` for v1, `_ping_device` for a v2 class that has it. */
  predicate Verifies(c: ProtocolClass, version: string)
  {
    version == "v1" || (version == "v2" && HasPing(c))
  }

  /** Outcome of trying one version. */
  datatype Trial = Accepted | Rejected | Aborted(error: Error)

  /** `_try_le_protocol_version`: the first failure decides; a serial or
      OS fault escapes, anything else rejects the version. */
  function TrialOf(c: ProtocolClass, version: string, p: Probe): (r: Trial)
    ensures r.Accepted? <==> p.connect.Ok? && (Verifies(c, version) ==> p.verify.Ok?)
    ensures p.connect.Err? ==> (r.Aborted? <==> p.connect.error.IsSerialOrOS())
    ensures r.Aborted? && p.connect.Err? ==> r.error == p.connect.error
    ensures r.Aborted? && p.connect.Ok? ==> Verifies(c, version) && r.error == p.verify.error && p.verify.error.IsSerialOrOS()
  {
    var failure :=
      if p.connect.Err? then Some(p.connect.error)
      else if Verifies(c, version) && p.verify.Err? then Some(p.verify.error)
      else None;
    match failure
    case None => Accepted
    case Some(e) => if e.IsSerialOrOS() then Aborted(e) else Rejected
  }

  /** A protocol instance, connected or not. */
  class Protocol {
    const cls: ProtocolClass
    var connected: bool

    constructor (c: ProtocolClass)
      ensures cls == c && !connected
    {
      cls := c;
      connected := false;
    }

    /** `connect()`, whose outcome the device decides. */
    method Connect(outcome: Result<()>) returns (r: Result<()>)
      modifies this
      ensures r == outcome && connected == outcome.Ok?
    {
      connected := outcome.Ok?;
      r := outcome;
    }

    method Disconnect()
      modifies this
      ensures !connected
    {
      connected := false;
    }
  }

  /** `_try_le_protocol_version` on a fresh instance; a verification failure
      disconnects the instance before it is handled. */
  method TryVersion(c: ProtocolClass, version: string, p: Probe) returns (trial: Trial, protocol: Protocol)
    ensures fresh(protocol) && protocol.cls == c
    ensures trial == TrialOf(c, version, p)
    ensures protocol.connected <==> trial.Accepted?
  {
    protocol := new Protocol(c);
    var connected := protocol.Connect(p.connect);
    if connected.Err? {
      trial := if connected.error.IsSerialOrOS() then Aborted(connected.error) else Rejected;
      return;
    }
    if Verifies(c, version) && p.verify.Err? {
      protocol.Disconnect();
      trial := if p.verify.error.IsSerialOrOS() then Aborted(p.verify.error) else Rejected;
      return;
    }
    trial := Accepted;
  }

  // ---------------------------------------------------------------------
  // Negotiation

  /** `[v for v in LE_SUPPORTED_VERSIONS if v in le_protocols]`. */
  function Available(le: seq<(string, ProtocolClass)>, versions: seq<string>): (r: seq<string>)
    ensures forall v :: v in r <==> v in versions && v in Keys(le)
  {
    if versions == [] then []
    else (if versions[0] in Keys(le) then [versions[0]] else []) + Available(le, versions[1..])
  }

  function LastErrorRepr(last: Option<string>): string
  {
    match last
    case None => "None"
    case Some(s) => s
  }

  function NegotiationFailed(available: seq<string>, last: Option<string>): Error
  {
    RuntimeError("Le protocol negotiation failed for all versions " + ListRepr(available)
      + ". Last error: " + LastErrorRepr(last))
  }

  /** The negotiation loop from `versions` on, with `last` the error
      recorded so far: the version it settles on, or the error it raises. */
  function NegotiateFrom(le: seq<(string, ProtocolClass)>, probes: string -> Probe,
                         versions: seq<string>, last: Option<string>): (r: Result<string>)
    ensures r.Ok? ==> r.value in versions && r.value in Keys(le)
    ensures r.Ok? ==> TrialOf(Lookup(le, r.value).value, r.value, probes(r.value)).Accepted?
  {
    if versions == [] then Err(NegotiationFailed(Available(le, SupportedLe), last))
    else
      var v := versions[0];
      match Lookup(le, v)
      case None => NegotiateFrom(le, probes, versions[1..], last)
      case Some(c) =>
        match TrialOf(c, v, probes(v))
        case Accepted => Ok(v)
        case Aborted(e) => Err(e)
        case Rejected => NegotiateFrom(le, probes, versions[1..], Some("Version " + v + " failed"))
  }

  /** `_negotiate_le_protocol_version`'s outcome. */
  function Negotiate(le: seq<(string, ProtocolClass)>, probes: string -> Probe): Result<string>
  {
    NegotiateFrom(le, probes, SupportedLe, None)
  }

  /** A version the search passes over: not registered, or rejected. */
  predicate PassedOver(le: seq<(string, ProtocolClass)>, probes: string -> Probe, v: string)
  {
    Lookup(le, v).None? || TrialOf(Lookup(le, v).value, v, probes(v)).Rejected?
  }

  /** The first version that is not passed over decides: it is returned
      when it is accepted, and its serial or OS fault is raised unchanged
      when it aborts; no later version is tried. */
  lemma {:induction false} FirstDecides(le: seq<(string, ProtocolClass)>, probes: string -> Probe,
                                        versions: seq<string>, last: Option<string>, i: nat)
    requires i < |versions| && !PassedOver(le, probes, versions[i])
    requires forall j :: 0 <= j < i ==> PassedOver(le, probes, versions[j])
    ensures var t := TrialOf(Lookup(le, versions[i]).value, versions[i], probes(versions[i]));
      NegotiateFrom(le, probes, versions, last) == (if t.Accepted? then Ok(versions[i]) else Err(t.error))
  {
    if i > 0 {
      var v := versions[0];
      assert PassedOver(le, probes, v);
      var next := if Lookup(le, v).None? then last else Some("Version " + v + " failed");
      FirstDecides(le, probes, versions[1..], next, i - 1);
    }
  }

  /** The error recorded when every version is passed over: the last
      registered one failed, or nothing when none is registered. */
  function LastFailure(le: seq<(string, ProtocolClass)>, versions: seq<string>, last: Option<string>): Option<string>
  {
    if versions == [] then last
    else LastFailure(le, versions[1..], if versions[0] in Keys(le) then Some("Version " + versions[0] + " failed") else last)
  }

  /** When every version is passed over, negotiation raises RuntimeError
      naming the registered versions and the last failure. */
  lemma {:induction false} AllPassedOver(le: seq<(string, ProtocolClass)>, probes: string -> Probe,
                                         versions: seq<string>, last: Option<string>)
    requires forall j :: 0 <= j < |versions| ==> PassedOver(le, probes, versions[j])
    ensures NegotiateFrom(le, probes, versions, last)
      == Err(NegotiationFailed(Available(le, SupportedLe), LastFailure(le, versions, last)))
  {
    if versions != [] {
      assert PassedOver(le, probes, versions[0]);
      var next := if versions[0] in Keys(le) then Some("Version " + versions[0] + " failed") else last;
      AllPassedOver(le, probes, versions[1..], next);
    }
  }

  /** A negotiated version was accepted, and every version preferred to it
      was passed over. */
  lemma {:induction false} NegotiatedIsFirstAccepted(le: seq<(string, ProtocolClass)>, probes: string -> Probe,
                                                     versions: seq<string>, last: Option<string>)
    requires NegotiateFrom(le, probes, versions, last).Ok?
    ensures exists i :: (0 <= i < |versions| && versions[i] == NegotiateFrom(le, probes, versions, last).value
      && forall j :: 0 <= j < i ==> PassedOver(le, probes, versions[j]))
  {
    var v := versions[0];
    if Lookup(le, v).Some? && TrialOf(Lookup(le, v).value, v, probes(v)).Accepted? {
      assert versions[0] == NegotiateFrom(le, probes, versions, last).value;
    } else {
      var next := if Lookup(le, v).None? then last else Some("Version " + v + " failed");
      NegotiatedIsFirstAccepted(le, probes, versions[1..], next);
      var i :| 0 <= i < |versions[1..]| && versions[1..][i] == NegotiateFrom(le, probes, versions[1..], next).value
        && (forall j :: 0 <= j < i ==> PassedOver(le, probes, versions[1..][j]));
      assert versions[i + 1] == NegotiateFrom(le, probes, versions, last).value;
      forall j | 0 <= j < i + 1
        ensures PassedOver(le, probes, versions[j])
      {
        if j > 0 {
          assert versions[j] == versions[1..][j - 1];
        }
      }
    }
  }

  /** With both Le versions registered: v2 is chosen when it is accepted,
      and v1 when v2 is rejected and v1 accepted. */
  lemma PrefersNewest(le: seq<(string, ProtocolClass)>, probes: string -> Probe)
    requires Lookup(le, "v2").Some? && Lookup(le, "v1").Some?
    ensures TrialOf(Lookup(le, "v2").value, "v2", probes("v2")).Accepted? ==> Negotiate(le, probes) == Ok("v2")
    ensures (TrialOf(Lookup(le, "v2").value, "v2", probes("v2")).Rejected?
      && TrialOf(Lookup(le, "v1").value, "v1", probes("v1")).Accepted?) ==> Negotiate(le, probes) == Ok("v1")
  {
    if TrialOf(Lookup(le, "v2").value, "v2", probes("v2")).Accepted? {
      FirstDecides(le, probes, SupportedLe, None, 0);
    } else if TrialOf(Lookup(le, "v2").value, "v2", probes("v2")).Rejected?
      && TrialOf(Lookup(le, "v1").value, "v1", probes("v1")).Accepted? {
      FirstDecides(le, probes, SupportedLe, None, 1);
    }
  }

  // ---------------------------------------------------------------------
  // The registry object

  /** `get_protocol`'s outcome on table `t`: the registered version chosen
      (the given one, or the negotiated one when none is given), or the
      error raised. */
  function ChooseOn(t: Table, config: DeviceConfig, version: Option<string>, probes: string -> Probe): (r: Result<string>)
    ensures t == [] ==> r == Err(RuntimeError("No protocol implementations registered"))
    ensures t != [] && config.OtherDevice? ==> r == Err(TypeError("Unsupported device configuration type: " + config.typeName))
    ensures t != [] && config.LeDevice? && LeEntries(t) == [] ==> r == Err(RuntimeError("No Le protocol implementations registered"))
    ensures r.Ok? ==> r.value in Keys(LeEntries(t))
    ensures t != [] && config.LeDevice? && LeEntries(t) != [] && version.Some? ==>
      (r.Ok? <==> version.value in Keys(LeEntries(t))) && (r.Ok? ==> r.value == version.value)
  {
    if t == [] then Err(RuntimeError("No protocol implementations registered"))
    else if config.OtherDevice? then Err(TypeError("Unsupported device configuration type: " + config.typeName))
    else
      var le := LeEntries(t);
      if le == [] then Err(RuntimeError("No Le protocol implementations registered"))
      else match version
        case Some(v) =>
          if v in Keys(le) then Ok(v)
          else Err(ValueError("Le protocol version '" + v + "' not supported. Available: " + ListRepr(Keys(le))))
        case None => Negotiate(le, probes)
  }

  /** `list_supported_versions`: each device type with its versions, in
      registration order. */
  function SupportedVersions(t: Table): (r: seq<(string, seq<string>)>)
    ensures Keys(r) == Keys(t)
    ensures forall i :: 0 <= i < |t| ==> r[i].1 == Keys(t[i].1)
  {
    if t == [] then [] else [(t[0].0, Keys(t[0].1))] + SupportedVersions(t[1..])
  }

  class ProtocolRegistry {
    var table: Table

    constructor ()
      ensures table == InitialTable
    {
      table := InitialTable;
    }

    /** `register_protocol`: create the device type's inner table when it
        is absent, then set the version. */
    method Register(deviceType: string, version: string, c: ProtocolClass)
      modifies this
      ensures table == Registered(old(table), deviceType, version, c)
    {
      if Lookup(table, deviceType).None? {
        table := Put(table, deviceType, []);
      }
      var inner := Lookup(table, deviceType).value;
      PutPut(old(table), deviceType, [], Put(inner, version, c));
      table := Put(table, deviceType, Put(inner, version, c));
    }

    /** `_negotiate_le_protocol_version`: each preferred version that is
        registered is tried in turn on a fresh instance. */
    method NegotiateVersion(probes: string -> Probe) returns (r: Result<Protocol>)
      ensures var n := Negotiate(LeEntries(table), probes);
        (r.Ok? <==> n.Ok?) && (r.Err? ==> r.error == n.error)
      ensures r.Ok? ==> var n := Negotiate(LeEntries(table), probes).value;
        fresh(r.value) && r.value.connected && Lookup(LeEntries(table), n) == Some(r.value.cls)
    {
      var le := LeEntries(table);
      var last: Option<string> := None;
      for i := 0 to |SupportedLe|
        invariant NegotiateFrom(le, probes, SupportedLe[i..], last) == Negotiate(le, probes)
      {
        var v := SupportedLe[i];
        assert SupportedLe[i..][1..] == SupportedLe[i + 1..];
        var c := Lookup(le, v);
        if c.Some? {
          var trial, protocol := TryVersion(c.value, v, probes(v));
          if trial.Accepted? {
            return Ok(protocol);
          }
          if trial.Aborted? {
            return Err(trial.error);
          }
          last := Some("Version " + v + " failed");
        }
      }
      r := Err(NegotiationFailed(Available(le, SupportedLe), last));
    }

    /** `get_protocol`: a fresh unconnected instance of the requested
        version, or the negotiated instance, connected. */
    method GetProtocol(config: DeviceConfig, version: Option<string>, probes: string -> Probe) returns (r: Result<Protocol>)
      ensures var x := ChooseOn(table, config, version, probes);
        (r.Ok? <==> x.Ok?) && (r.Err? ==> r.error == x.error)
      ensures r.Ok? ==> var x := ChooseOn(table, config, version, probes).value;
        fresh(r.value) && Lookup(LeEntries(table), x) == Some(r.value.cls) && r.value.connected == version.None?
    {
      if table == [] {
        return Err(RuntimeError("No protocol implementations registered"));
      }
      if config.OtherDevice? {
        return Err(TypeError("Unsupported device configuration type: " + config.typeName));
      }
      var le := LeEntries(table);
      if le == [] {
        return Err(RuntimeError("No Le protocol implementations registered"));
      }
      if version.Some? {
        var c := Lookup(le, version.value);
        if c.None? {
          return Err(ValueError("Le protocol version '" + version.value + "' not supported. Available: " + ListRepr(Keys(le))));
        }
        var protocol := new Protocol(c.value);
        return Ok(protocol);
      }
      r := NegotiateVersion(probes);
    }

    /** `detect_protocol_version`: the negotiated instance's own
        `protocol_version`; the instance is disconnected afterwards. */
    method DetectProtocolVersion(config: DeviceConfig, probes: string -> Probe) returns (r: Result<string>)
      ensures var x := ChooseOn(table, config, None, probes);
        (r.Ok? <==> x.Ok?) && (r.Err? ==> r.error == x.error)
      ensures r.Ok? ==> r.value == VersionAttribute(Lookup(LeEntries(table), ChooseOn(table, config, None, probes).value).value)
    {
      var protocol :- GetProtocol(config, None, probes);
      r := Ok(VersionAttribute(protocol.cls));
      protocol.Disconnect();
    }
  }
}
