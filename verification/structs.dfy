/** The board's configuration records: ports, sensor types and the board
    specification that owns them, with the defaults their constructors give. */
module Structs {
  import opened CStrings
  import opened FloatText

  /** One measurement channel.  `sensorId` is the index of the sensor type the
      port was bound to; `multiplier`, `rangeStart` and `rangeEnd` are copied
      from it.  A multiplier of exactly zero marks the port inactive. */
  datatype PortInfo = PortInfo(
    name: string,
    value: Reading,
    description: string,
    multiplier: real,
    sensorId: int,
    rangeStart: real,
    rangeEnd: real)

  /** A sensor type: what it measures, in which unit, the multiplier from the
      raw sample to that unit, and the valid range of converted values. */
  datatype SensorInfo = SensorInfo(
    id: int,
    typeName: string,
    unit: string,
    multiplier: real,
    rangeStart: real,
    rangeEnd: real)

  /** The board configuration.  The remote-connection fields (`remoteIp`,
      `remotePort`, `hostName`, `remoteDir`) are read and used by the firmware
      although the structure's declaration lacks them. */
  datatype BoardSpecs = BoardSpecs(
    id: string,
    networkSsid: string,
    networkPassword: string,
    wifiIp: string,
    databaseTableName: string,
    ports: seq<PortInfo>,
    sensors: seq<SensorInfo>,
    remoteIp: string,
    remotePort: int,
    hostName: string,
    remoteDir: string)

  type uint32 = x: int | 0 <= x < 0x1_0000_0000

  predicate IsActive(p: PortInfo) {
    p.multiplier != 0.0
  }

  /** The port a default-constructed `PortInfo` holds. */
  function DefaultPort(): (p: PortInfo)
    ensures !IsActive(p)
  {
    PortInfo("", Measured(0.0), "", 0.0, 0, 0.0, 0.0)
  }

  function DefaultSensor(): SensorInfo
  {
    SensorInfo(0, "No Sensor", "No Unit", 0.0, 0.0, 0.0)
  }

  function DefaultSpecs(): BoardSpecs
  {
    BoardSpecs("", "", "", "", "", [], [], "", 0, "", "")
  }

  /** Every default field is empty or zero, and a default port is inactive. */
  lemma DefaultsAreEmpty()
    ensures var p := DefaultPort();
      p.name == "" && p.description == "" && p.value == Measured(0.0)
      && p.multiplier == 0.0 && p.sensorId == 0 && p.rangeStart == 0.0 && p.rangeEnd == 0.0
      && !IsActive(p)
    ensures var s := DefaultSensor();
      s.typeName == "No Sensor" && s.unit == "No Unit"
      && s.multiplier == 0.0 && s.rangeStart == 0.0 && s.rangeEnd == 0.0
    ensures var b := DefaultSpecs();
      b.id == "" && b.networkSsid == "" && b.networkPassword == "" && b.wifiIp == ""
      && b.databaseTableName == "" && b.ports == [] && b.sensors == []
  {
  }

  /** `setPortNum`: `Ports.resize(n)` keeps the first ports and pads with
      default ones. */
  function SetPortNum(specs: BoardSpecs, n: uint32): (r: BoardSpecs)
    ensures |r.ports| == n
    ensures forall i :: 0 <= i < n && i < |specs.ports| ==> r.ports[i] == specs.ports[i]
    ensures forall i :: |specs.ports| <= i < n ==> r.ports[i] == DefaultPort() && !IsActive(r.ports[i])
    ensures r.(ports := specs.ports) == specs
  {
    var ports :=
      if n <= |specs.ports| then specs.ports[..n]
      else specs.ports + seq(n - |specs.ports|, _ => DefaultPort());
    specs.(ports := ports)
  }

  /** `getPortNum`: the port count, truncated to an `unsigned int`. */
  function GetPortNum(specs: BoardSpecs): uint32
  {
    |specs.ports| % 0x1_0000_0000
  }

  lemma {:induction false} PortNumRoundTrip(specs: BoardSpecs, n: uint32)
    ensures GetPortNum(SetPortNum(specs, n)) == n
  {
  }

  /** A port whose name and description fit the comma-separated, line-based
      text formats: a non-empty name free of commas and newlines, and a
      non-empty single-line description. */
  predicate RecordSafe(p: PortInfo) {
    && |p.name| > 0
    && (forall i :: 0 <= i < |p.name| ==> p.name[i] != ',' && p.name[i] != '\n')
    && |p.description| > 0
    && NoNewline(p.description)
  }

  predicate AllRecordSafe(ports: seq<PortInfo>) {
    forall i :: 0 <= i < |ports| ==> RecordSafe(ports[i])
  }

  predicate ActiveRecordSafe(ports: seq<PortInfo>) {
    forall i :: 0 <= i < |ports| ==> IsActive(ports[i]) ==> RecordSafe(ports[i])
  }

  // ---------------------------------------------------------------------------
  // Active ports

  /** The active ports, in table order. */
  function ActivePorts(ports: seq<PortInfo>): (r: seq<PortInfo>)
    ensures |r| <= |ports|
    ensures forall i :: 0 <= i < |r| ==> IsActive(r[i])
    ensures forall p :: p in r ==> p in ports
    ensures forall i :: 0 <= i < |ports| && IsActive(ports[i]) ==> ports[i] in r
    ensures (forall i :: 0 <= i < |ports| ==> IsActive(ports[i])) ==> r == ports
  {
    if |ports| == 0 then []
    else (if IsActive(ports[0]) then [ports[0]] else []) + ActivePorts(ports[1..])
  }

  /** Filtering keeps table order: the active ports of a concatenation are
      those of the first part followed by those of the second. */
  lemma {:induction false} ActivePortsAppend(a: seq<PortInfo>, b: seq<PortInfo>)
    ensures ActivePorts(a + b) == ActivePorts(a) + ActivePorts(b)
    decreases |a|
  {
    if |a| == 0 {
      assert a + b == b;
    } else {
      assert (a + b)[0] == a[0];
      assert (a + b)[1..] == a[1..] + b;
      ActivePortsAppend(a[1..], b);
    }
  }

  /** The count loops of `deleteDataEntry` and `getSensorDataFromFile`. */
  function ActiveCount(ports: seq<PortInfo>): nat
  {
    |ActivePorts(ports)|
  }

  /** Activity and multipliers of a table are unaffected by changing values. */
  predicate SameLayout(a: seq<PortInfo>, b: seq<PortInfo>) {
    |a| == |b| && forall i :: 0 <= i < |a| ==> a[i].(value := b[i].value) == b[i]
  }

  lemma {:induction false} SameLayoutActive(a: seq<PortInfo>, b: seq<PortInfo>)
    requires SameLayout(a, b)
    ensures |ActivePorts(a)| == |ActivePorts(b)|
    ensures forall i :: 0 <= i < |ActivePorts(a)| ==>
      ActivePorts(a)[i].(value := ActivePorts(b)[i].value) == ActivePorts(b)[i]
    decreases |a|
  {
    if |a| > 0 {
      assert a[0].(value := b[0].value) == b[0];
      assert SameLayout(a[1..], b[1..]) by {
        forall i | 0 <= i < |a| - 1 ensures a[1..][i].(value := b[1..][i].value) == b[1..][i] {
          assert a[1..][i] == a[i + 1] && b[1..][i] == b[i + 1];
        }
      }
      SameLayoutActive(a[1..], b[1..]);
    }
  }
}
