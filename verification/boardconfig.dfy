/** Reading the board configuration file.

    The file is read twice, line by line.  The first pass collects every sensor
    type line (`S...SensorID...:Type,Unit,Multiplier,RangeStart,RangeEnd`) into
    the sensor table, in file order; a sensor's index in that table is the id
    ports refer to.  The second pass applies connection lines
    (`C...ConnInfo...:IP,Port,Host,Dir`), board lines
    (`B...Board...:SSID,Password,Table`) and port lines
    (`P...Port...:Name,SensorIndex`).  A port is kept only if its index names a
    sensor and that sensor's multiplier is not zero.

    Every field is cut out with `strtok`; where the firmware would copy or
    convert a `NULL` token (a line with too few fields) the model yields None. */
module BoardConfig {
  import opened Basics
  import opened CStrings
  import opened FloatText
  import opened Structs

  predicate IsSensorLine(line: string) {
    |line| > 0 && line[0] == 'S' && Occurs(line, "SensorID")
  }

  predicate IsConnLine(line: string) {
    |line| > 0 && line[0] == 'C' && Occurs(line, "ConnInfo")
  }

  predicate IsBoardLine(line: string) {
    |line| > 0 && line[0] == 'B' && Occurs(line, "Board")
  }

  predicate IsPortLine(line: string) {
    |line| > 0 && line[0] == 'P' && Occurs(line, "Port")
  }

  // ---------------------------------------------------------------------------
  // First pass: sensor types

  /** The five fields after the `:`; the sensor's own id is left at its
      default. */
  function ParseSensorLine(line: string): (r: Option<SensorInfo>)
    ensures r.Some? ==> r.value.id == 0 && |r.value.typeName| > 0 && |r.value.unit| > 0
    ensures r.Some? && NoNewline(line) ==> NoNewline(r.value.typeName) && NoNewline(r.value.unit)
  {
    var head :- Strtok(line, {':'});
    var kind :- Strtok(head.rest, {','});
    var unit :- Strtok(kind.rest, {','});
    var mult :- Strtok(unit.rest, {','});
    var lo :- Strtok(mult.rest, {','});
    var hi :- Strtok(lo.rest, {'\n'});
    Some(SensorInfo(0, kind.text, unit.text, AtofDecimal(mult.text), AtofDecimal(lo.text), AtofDecimal(hi.text)))
  }

  /** The sensor lines of the file, in order. */
  function SensorLines(lines: seq<string>): (r: seq<string>)
    ensures forall i :: 0 <= i < |r| ==> IsSensorLine(r[i])
  {
    if |lines| == 0 then []
    else (if IsSensorLine(lines[0]) then [lines[0]] else []) + SensorLines(lines[1..])
  }

  /** The first pass: one entry per sensor line, in file order. */
  function SensorTable(lines: seq<string>): (r: Option<seq<SensorInfo>>)
    ensures r.Some? <==> forall i :: 0 <= i < |SensorLines(lines)| ==> ParseSensorLine(SensorLines(lines)[i]).Some?
    ensures r.Some? ==> |r.value| == |SensorLines(lines)|
    ensures r.Some? ==> forall i :: 0 <= i < |r.value| ==> ParseSensorLine(SensorLines(lines)[i]) == Some(r.value[i])
  {
    var sensorLines := SensorLines(lines);
    var r := ParseSensors(sensorLines);
    assert r.Some? ==> |r.value| == |sensorLines|;
    r
  }

  /** Sensor types whose names and units fit on one line. */
  predicate SingleLineSensors(sensors: seq<SensorInfo>) {
    forall i :: 0 <= i < |sensors| ==> NoNewline(sensors[i].typeName) && NoNewline(sensors[i].unit)
  }

  lemma SensorTableSingleLine(lines: seq<string>)
    ensures SensorTable(lines).Some? && (forall i :: 0 <= i < |lines| ==> NoNewline(lines[i])) ==>
      SingleLineSensors(SensorTable(lines).value)
  {
    if SensorTable(lines).Some? && (forall i :: 0 <= i < |lines| ==> NoNewline(lines[i])) {
      SensorLinesFrom(lines);
      var table := SensorTable(lines).value;
      forall i | 0 <= i < |table| ensures NoNewline(table[i].typeName) && NoNewline(table[i].unit) {
        var line := SensorLines(lines)[i];
        assert line in lines;
        assert ParseSensorLine(line) == Some(table[i]);
      }
    }
  }

  /** Every sensor line is one of the file's lines. */
  lemma {:induction false} SensorLinesFrom(lines: seq<string>)
    ensures forall i :: 0 <= i < |SensorLines(lines)| ==> SensorLines(lines)[i] in lines
    decreases |lines|
  {
    if |lines| > 0 {
      SensorLinesFrom(lines[1..]);
    }
  }

  function ParseSensors(lines: seq<string>): (r: Option<seq<SensorInfo>>)
    ensures r.Some? <==> forall i :: 0 <= i < |lines| ==> ParseSensorLine(lines[i]).Some?
    ensures r.Some? ==> |r.value| == |lines|
    ensures r.Some? ==> forall i :: 0 <= i < |lines| ==> ParseSensorLine(lines[i]) == Some(r.value[i])
  {
    if |lines| == 0 then Some([])
    else
      match ParseSensorLine(lines[0])
      case None => None
      case Some(s) =>
        match ParseSensors(lines[1..])
        case None => None
        case Some(ss) => Some([s] + ss)
  }

  // ---------------------------------------------------------------------------
  // Second pass: connection, board and port lines

  datatype Conn = Conn(ip: string, port: int, host: string, dir: string)

  /** The connection fields; the remote port is `atoi` of its field when the
      field starts with a digit and 0 otherwise. */
  function ParseConnLine(line: string): (r: Option<Conn>)
    ensures r.Some? ==> r.value.port >= 0
    ensures r.Some? ==> |r.value.ip| > 0 && |r.value.host| > 0 && |r.value.dir| > 0
  {
    var head :- Strtok(line, {':'});
    var ip :- Strtok(head.rest, {','});
    var port :- Strtok(ip.rest, {','});
    var host :- Strtok(port.rest, {','});
    var dir :- Strtok(host.rest, {'\n'});
    Some(Conn(ip.text, PortNumber(port.text), host.text, dir.text))
  }

  /** The remote port field: `atoi` of it when it starts with a digit, else 0. */
  function PortNumber(field: string): (n: int)
    requires |field| > 0
    ensures IsDigit(field[0]) ==> n == DigitsValue(field[..DigitRun(field)])
    ensures !IsDigit(field[0]) ==> n == 0
  {
    if IsDigit(field[0]) then
      AtoiOfDigits(field);
      Atoi(field)
    else 0
  }

  datatype BoardLine = BoardLine(ssid: string, password: string, table: string)

  /** The board fields: Wi-Fi SSID, Wi-Fi password and database table name. */
  function ParseBoardLine(line: string): (r: Option<BoardLine>)
    ensures r.Some? ==> |r.value.ssid| > 0 && |r.value.password| > 0 && |r.value.table| > 0
    ensures r.Some? ==> forall i :: 0 <= i < |r.value.ssid| ==> r.value.ssid[i] != ','
    ensures r.Some? ==> forall i :: 0 <= i < |r.value.password| ==> r.value.password[i] != ','
  {
    var head :- Strtok(line, {':'});
    var ssid :- Strtok(head.rest, {','});
    var password :- Strtok(ssid.rest, {','});
    var table :- Strtok(password.rest, {'\n'});
    Some(BoardLine(ssid.text, password.text, table.text))
  }

  datatype PortLine = PortLine(name: string, sensorId: int)

  function ParsePortLine(line: string): (r: Option<PortLine>)
    ensures r.Some? ==> |r.value.name| > 0
    ensures r.Some? ==> forall i :: 0 <= i < |r.value.name| ==> r.value.name[i] != ','
    ensures r.Some? && NoNewline(line) ==> NoNewline(r.value.name)
  {
    var head :- Strtok(line, {':'});
    var name :- Strtok(head.rest, {','});
    var id :- Strtok(name.rest, {'\n'});
    Some(PortLine(name.text, Atoi(id.text)))
  }

  /** A port bound to the sensor its line names, with the sensor's multiplier
      and range and a description "<type> in <unit>". */
  predicate BoundTo(p: PortInfo, sensors: seq<SensorInfo>) {
    && 0 <= p.sensorId < |sensors|
    && p.multiplier == sensors[p.sensorId].multiplier
    && p.multiplier != 0.0
    && p.rangeStart == sensors[p.sensorId].rangeStart
    && p.rangeEnd == sensors[p.sensorId].rangeEnd
    && p.description == sensors[p.sensorId].typeName + " in " + sensors[p.sensorId].unit
    && p.value == Measured(0.0)
  }

  predicate AllBound(ports: seq<PortInfo>, sensors: seq<SensorInfo>) {
    forall i :: 0 <= i < |ports| ==> BoundTo(ports[i], sensors)
  }

  /** Binding a port line: None when the port is skipped, because its index
      names no sensor or the sensor's multiplier is zero. */
  function BindPort(line: PortLine, sensors: seq<SensorInfo>): (r: Option<PortInfo>)
    ensures r.Some? <==> 0 <= line.sensorId < |sensors| && sensors[line.sensorId].multiplier != 0.0
    ensures r.Some? ==> BoundTo(r.value, sensors) && r.value.name == line.name
                        && r.value.sensorId == line.sensorId
  {
    var id := line.sensorId;
    if 0 <= id < |sensors| && sensors[id].multiplier != 0.0 then
      var s := sensors[id];
      Some(PortInfo(line.name, Measured(0.0), s.typeName + " in " + s.unit,
                    s.multiplier, id, s.rangeStart, s.rangeEnd))
    else None
  }

  /** One line of the second pass.  Each kind of line touches only its own
      fields, other lines change nothing, and the pass fails only on a
      recognised line with too few fields. */
  function ApplyLine(specs: BoardSpecs, line: string): (r: Option<BoardSpecs>)
    ensures r.None? <==> (IsConnLine(line) && ParseConnLine(line).None?)
                         || (IsBoardLine(line) && ParseBoardLine(line).None?)
                         || (IsPortLine(line) && ParsePortLine(line).None?)
    ensures !IsConnLine(line) && !IsBoardLine(line) && !IsPortLine(line) ==> r == Some(specs)
    ensures r.Some? ==> r.value.sensors == specs.sensors && r.value.id == specs.id && r.value.wifiIp == specs.wifiIp
    ensures IsConnLine(line) && r.Some? ==>
      r.value.ports == specs.ports && r.value.networkSsid == specs.networkSsid
      && r.value.networkPassword == specs.networkPassword
      && r.value.databaseTableName == specs.databaseTableName
    ensures IsBoardLine(line) && r.Some? ==>
      r.value.ports == specs.ports && r.value.remoteIp == specs.remoteIp
      && r.value.remotePort == specs.remotePort && r.value.hostName == specs.hostName
      && r.value.remoteDir == specs.remoteDir
    ensures IsPortLine(line) && r.Some? ==>
      && r.value == specs.(ports := r.value.ports)
      && (r.value.ports == specs.ports
          || (|r.value.ports| == |specs.ports| + 1 && r.value.ports[..|specs.ports|] == specs.ports))
  {
    if IsConnLine(line) then
      var c :- ParseConnLine(line);
      Some(specs.(remoteIp := c.ip, remotePort := c.port, hostName := c.host, remoteDir := c.dir))
    else if IsBoardLine(line) then
      var b :- ParseBoardLine(line);
      Some(specs.(networkSsid := b.ssid, networkPassword := b.password, databaseTableName := b.table))
    else if IsPortLine(line) then
      var pl :- ParsePortLine(line);
      match BindPort(pl, specs.sensors)
      case Some(p) => Some(specs.(ports := specs.ports + [p]))
      case None => Some(specs)
    else Some(specs)
  }

  /** One line of the second pass only ever appends a port, and that port is
      bound to the sensor table and fits the backlog format. */
  lemma ApplyLineStep(specs: BoardSpecs, line: string)
    requires ApplyLine(specs, line).Some?
    ensures var next := ApplyLine(specs, line).value;
      && next.sensors == specs.sensors
      && |specs.ports| <= |next.ports| && next.ports[..|specs.ports|] == specs.ports
      && (AllBound(specs.ports, specs.sensors) ==> AllBound(next.ports, specs.sensors))
      && (SingleLineSensors(specs.sensors) && NoNewline(line) && AllRecordSafe(specs.ports)
          ==> AllRecordSafe(next.ports))
  {
    var next := ApplyLine(specs, line).value;
    if !IsConnLine(line) && !IsBoardLine(line) && IsPortLine(line) {
      var pl := ParsePortLine(line).value;
      match BindPort(pl, specs.sensors)
      case Some(p) =>
        assert next.ports == specs.ports + [p];
        assert next.ports[..|specs.ports|] == specs.ports;
        var s := specs.sensors[p.sensorId];
        if SingleLineSensors(specs.sensors) && NoNewline(line) {
          assert p.description == s.typeName + " in " + s.unit;
          assert NoNewline(p.description);
        }
      case None =>
    }
  }

  /** The second pass over `lines`. */
  function ApplyLines(specs: BoardSpecs, lines: seq<string>): (r: Option<BoardSpecs>)
    ensures r.Some? ==> r.value.sensors == specs.sensors
    ensures r.Some? ==> |specs.ports| <= |r.value.ports| && r.value.ports[..|specs.ports|] == specs.ports
    ensures r.Some? && AllBound(specs.ports, specs.sensors) ==> AllBound(r.value.ports, specs.sensors)
    ensures (r.Some? && SingleLineSensors(specs.sensors) && (forall i :: 0 <= i < |lines| ==> NoNewline(lines[i]))
             && AllRecordSafe(specs.ports)) ==> AllRecordSafe(r.value.ports)
    decreases |lines|
  {
    if |lines| == 0 then Some(specs)
    else
      var next :- ApplyLine(specs, lines[0]);
      ApplyLineStep(specs, lines[0]);
      var r := ApplyLines(next, lines[1..]);
      assert r.Some? ==> r.value.ports[..|specs.ports|] == r.value.ports[..|next.ports|][..|specs.ports|];
      r
  }

  /** `readConfigText`: the sensor pass, then the second pass starting from a
      default board that holds the whole sensor table. */
  function ReadConfigText(lines: seq<string>): (r: Option<BoardSpecs>)
    ensures r.Some? ==> SensorTable(lines).Some? && r.value.sensors == SensorTable(lines).value
    ensures r.Some? ==> AllBound(r.value.ports, r.value.sensors)
    ensures r.Some? ==> forall i :: 0 <= i < |r.value.ports| ==> IsActive(r.value.ports[i])
    ensures r.Some? && (forall i :: 0 <= i < |lines| ==> NoNewline(lines[i])) ==> AllRecordSafe(r.value.ports)
  {
    var sensors :- SensorTable(lines);
    SensorTableSingleLine(lines);
    ApplyLines(DefaultSpecs().(sensors := sensors), lines)
  }

  /** The configuration file's text, split into the lines `fgets` returns: the
      ports it yields are active and can be written to and read back from the
      backlog. */
  function ReadConfig(text: string): (r: Option<BoardSpecs>)
    ensures r.Some? ==> AllRecordSafe(r.value.ports)
    ensures r.Some? ==> forall i :: 0 <= i < |r.value.ports| ==> IsActive(r.value.ports[i])
  {
    ReadConfigText(SplitLines(text))
  }

  // ---------------------------------------------------------------------------
  // Properties of the second pass

  lemma {:induction false} ApplyLinesAppend(specs: BoardSpecs, a: seq<string>, b: seq<string>)
    ensures ApplyLines(specs, a + b) ==
      (match ApplyLines(specs, a)
       case None => None
       case Some(mid) => ApplyLines(mid, b))
    decreases |a|
  {
    if |a| == 0 {
      assert a + b == b;
    } else {
      assert (a + b)[0] == a[0];
      assert (a + b)[1..] == a[1..] + b;
      match ApplyLine(specs, a[0])
      case None =>
      case Some(next) =>
        ApplyLinesAppend(next, a[1..], b);
    }
  }

  /** The port lines of the file, in order. */
  function PortLines(lines: seq<string>): (r: seq<string>)
    ensures forall i :: 0 <= i < |r| ==> IsPortLine(r[i])
  {
    if |lines| == 0 then []
    else (if IsPortLine(lines[0]) && !IsConnLine(lines[0]) && !IsBoardLine(lines[0]) then [lines[0]] else [])
         + PortLines(lines[1..])
  }

  /** Reference for the bound ports: each port line in order, parsed and bound,
      skipped ports left out. */
  function BindAll(portLines: seq<string>, sensors: seq<SensorInfo>): Option<seq<PortInfo>>
  {
    if |portLines| == 0 then Some([])
    else
      var pl :- ParsePortLine(portLines[0]);
      var rest :- BindAll(portLines[1..], sensors);
      match BindPort(pl, sensors)
      case Some(p) => Some([p] + rest)
      case None => Some(rest)
  }

  /** Kept ports appear in the order of their port lines: the second pass adds
      exactly the ports the reference binding produces, after those already
      present. */
  lemma {:induction false} ApplyLinesPorts(specs: BoardSpecs, lines: seq<string>)
    requires ApplyLines(specs, lines).Some?
    ensures BindAll(PortLines(lines), specs.sensors).Some?
    ensures ApplyLines(specs, lines).value.ports == specs.ports + BindAll(PortLines(lines), specs.sensors).value
    decreases |lines|
  {
    if |lines| == 0 {
      assert specs.ports + [] == specs.ports;
    } else {
      var line := lines[0];
      var next := ApplyLine(specs, line).value;
      ApplyLinesPorts(next, lines[1..]);
      var rest := BindAll(PortLines(lines[1..]), specs.sensors).value;
      if IsPortLine(line) && !IsConnLine(line) && !IsBoardLine(line) {
        assert PortLines(lines) == [line] + PortLines(lines[1..]);
        assert ([line] + PortLines(lines[1..]))[1..] == PortLines(lines[1..]);
        var pl := ParsePortLine(line).value;
        match BindPort(pl, specs.sensors)
        case Some(p) =>
          assert next.ports == specs.ports + [p];
          ConcatAssoc(specs.ports, [p], rest);
        case None =>
      } else {
        assert PortLines(lines) == PortLines(lines[1..]);
        assert next.ports == specs.ports;
      }
    }
  }

  /** The ports of a configuration are the bound port lines, in file order. */
  lemma ConfigPortsInLineOrder(lines: seq<string>)
    requires ReadConfigText(lines).Some?
    ensures BindAll(PortLines(lines), SensorTable(lines).value).Some?
    ensures ReadConfigText(lines).value.ports == BindAll(PortLines(lines), SensorTable(lines).value).value
  {
    var sensors := SensorTable(lines).value;
    ApplyLinesPorts(DefaultSpecs().(sensors := sensors), lines);
    assert [] + BindAll(PortLines(lines), sensors).value == BindAll(PortLines(lines), sensors).value;
  }

  /** Lines other than connection lines leave the connection fields alone. */
  lemma {:induction false} ApplyLinesKeepsConn(specs: BoardSpecs, lines: seq<string>)
    requires forall j :: 0 <= j < |lines| ==> !IsConnLine(lines[j])
    requires ApplyLines(specs, lines).Some?
    ensures var r := ApplyLines(specs, lines).value;
      r.remoteIp == specs.remoteIp && r.remotePort == specs.remotePort
      && r.hostName == specs.hostName && r.remoteDir == specs.remoteDir
    decreases |lines|
  {
    if |lines| > 0 {
      ApplyLinesKeepsConn(ApplyLine(specs, lines[0]).value, lines[1..]);
    }
  }

  /** Lines other than board lines leave the board fields alone. */
  lemma {:induction false} ApplyLinesKeepsBoard(specs: BoardSpecs, lines: seq<string>)
    requires forall j :: 0 <= j < |lines| ==> !IsBoardLine(lines[j])
    requires ApplyLines(specs, lines).Some?
    ensures var r := ApplyLines(specs, lines).value;
      r.networkSsid == specs.networkSsid && r.networkPassword == specs.networkPassword
      && r.databaseTableName == specs.databaseTableName
    decreases |lines|
  {
    if |lines| > 0 {
      ApplyLinesKeepsBoard(ApplyLine(specs, lines[0]).value, lines[1..]);
    }
  }

  /** Applying the lines is applying those before line `k`, then line `k`,
      then those after it. */
  lemma ApplyLinesAt(start: BoardSpecs, lines: seq<string>, k: nat)
    requires k < |lines|
    requires ApplyLines(start, lines).Some?
    ensures ApplyLines(start, lines[..k]).Some?
    ensures ApplyLine(ApplyLines(start, lines[..k]).value, lines[k]).Some?
    ensures ApplyLines(ApplyLine(ApplyLines(start, lines[..k]).value, lines[k]).value, lines[k + 1..])
            == ApplyLines(start, lines)
  {
    assert lines == lines[..k] + lines[k..];
    ApplyLinesAppend(start, lines[..k], lines[k..]);
    var pre := ApplyLines(start, lines[..k]).value;
    assert lines[k..][0] == lines[k] && lines[k..][1..] == lines[k + 1..];
  }

  /** The last connection line wins: the remote fields are those of the last
      `ConnInfo` line of the file. */
  lemma LastConnLineWins(lines: seq<string>, k: nat)
    requires k < |lines| && IsConnLine(lines[k])
    requires forall j :: k < j < |lines| ==> !IsConnLine(lines[j])
    requires ReadConfigText(lines).Some?
    ensures ParseConnLine(lines[k]).Some?
    ensures var r, c := ReadConfigText(lines).value, ParseConnLine(lines[k]).value;
      r.remoteIp == c.ip && r.remotePort == c.port && r.hostName == c.host && r.remoteDir == c.dir
  {
    var start := DefaultSpecs().(sensors := SensorTable(lines).value);
    ApplyLinesAt(start, lines, k);
    var mid := ApplyLine(ApplyLines(start, lines[..k]).value, lines[k]).value;
    var after := lines[k + 1..];
    forall j | 0 <= j < |after| ensures !IsConnLine(after[j]) {
      assert after[j] == lines[k + 1 + j];
    }
    ApplyLinesKeepsConn(mid, after);
  }

  /** The last board line wins: the network and table fields are those of the
      last `Board` line of the file. */
  lemma LastBoardLineWins(lines: seq<string>, k: nat)
    requires k < |lines| && IsBoardLine(lines[k]) && !IsConnLine(lines[k])
    requires forall j :: k < j < |lines| ==> !IsBoardLine(lines[j])
    requires ReadConfigText(lines).Some?
    ensures ParseBoardLine(lines[k]).Some?
    ensures var r, b := ReadConfigText(lines).value, ParseBoardLine(lines[k]).value;
      r.networkSsid == b.ssid && r.networkPassword == b.password && r.databaseTableName == b.table
  {
    var start := DefaultSpecs().(sensors := SensorTable(lines).value);
    ApplyLinesAt(start, lines, k);
    var mid := ApplyLine(ApplyLines(start, lines[..k]).value, lines[k]).value;
    var after := lines[k + 1..];
    forall j | 0 <= j < |after| ensures !IsBoardLine(after[j]) {
      assert after[j] == lines[k + 1 + j];
    }
    ApplyLinesKeepsBoard(mid, after);
  }

  /** Without any connection line, `readConfigText` never assigns `RemoteIP`,
      `RemotePort`, `HostName` or `RemoteDir`, so they keep the values of the
      default-constructed `BoardSpecs Specs;`: empty strings and, as this model
      takes the uninitialised `int`, port 0. */
  lemma NoConnLineNoRemote(lines: seq<string>)
    requires forall j :: 0 <= j < |lines| ==> !IsConnLine(lines[j])
    requires ReadConfigText(lines).Some?
    ensures var r, d := ReadConfigText(lines).value, DefaultSpecs();
      r.remoteIp == d.remoteIp && r.remotePort == d.remotePort
      && r.hostName == d.hostName && r.remoteDir == d.remoteDir
    ensures var r := ReadConfigText(lines).value;
      r.remoteIp == "" && r.remotePort == 0 && r.hostName == "" && r.remoteDir == ""
  {
    ApplyLinesKeepsConn(DefaultSpecs().(sensors := SensorTable(lines).value), lines);
  }

  // ---------------------------------------------------------------------------
  // Field layout of each kind of line

  /** A field `strtok` returns whole: non-empty and free of its delimiter. */
  predicate FieldFree(x: string, sep: char) {
    |x| > 0 && forall i :: 0 <= i < |x| ==> x[i] != sep
  }

  /** A sensor line: after the `:` come the type, the unit, the multiplier
      and the range start, each ended by a comma, then the range end. */
  lemma SensorLineFields(h: string, t: string, u: string, m: string, lo: string, hi: string)
    requires FieldFree(h, ':') && FieldFree(t, ',') && FieldFree(u, ',')
    requires FieldFree(m, ',') && FieldFree(lo, ',') && FieldFree(hi, '\n')
    ensures ParseSensorLine(h + ":" + t + "," + u + "," + m + "," + lo + "," + hi)
            == Some(SensorInfo(0, t, u, AtofDecimal(m), AtofDecimal(lo), AtofDecimal(hi)))
  {
    var r4 := lo + "," + hi;
    var r3 := m + "," + r4;
    var r2 := u + "," + r3;
    var r1 := t + "," + r2;
    assert h + ":" + t + "," + u + "," + m + "," + lo + "," + hi == h + ":" + r1;
    StrtokField(h, ':', r1, {':'});
    StrtokField(t, ',', r2, {','});
    StrtokField(u, ',', r3, {','});
    StrtokField(m, ',', r4, {','});
    StrtokField(lo, ',', hi, {','});
    StrtokLast(hi, {'\n'});
  }

  /** A connection line: after the `:` come the IP, the port and the host,
      each ended by a comma, then the directory.  The port is `atoi` of its
      field when that starts with a digit and 0 otherwise. */
  lemma ConnLineFields(h: string, ip: string, port: string, host: string, dir: string)
    requires FieldFree(h, ':') && FieldFree(ip, ',') && FieldFree(port, ',')
    requires FieldFree(host, ',') && FieldFree(dir, '\n')
    ensures ParseConnLine(h + ":" + ip + "," + port + "," + host + "," + dir)
            == Some(Conn(ip, if IsDigit(port[0]) then Atoi(port) else 0, host, dir))
  {
    var r3 := host + "," + dir;
    var r2 := port + "," + r3;
    var r1 := ip + "," + r2;
    assert h + ":" + ip + "," + port + "," + host + "," + dir == h + ":" + r1;
    StrtokField(h, ':', r1, {':'});
    StrtokField(ip, ',', r2, {','});
    StrtokField(port, ',', r3, {','});
    StrtokField(host, ',', dir, {','});
    StrtokLast(dir, {'\n'});
  }

  /** A board line: after the `:` come the SSID and the password, each ended
      by a comma, then the table name. */
  lemma BoardLineFields(h: string, ssid: string, password: string, table: string)
    requires FieldFree(h, ':') && FieldFree(ssid, ',') && FieldFree(password, ',')
    requires FieldFree(table, '\n')
    ensures ParseBoardLine(h + ":" + ssid + "," + password + "," + table)
            == Some(BoardLine(ssid, password, table))
  {
    var r2 := password + "," + table;
    var r1 := ssid + "," + r2;
    assert h + ":" + ssid + "," + password + "," + table == h + ":" + r1;
    StrtokField(h, ':', r1, {':'});
    StrtokField(ssid, ',', r2, {','});
    StrtokField(password, ',', table, {','});
    StrtokLast(table, {'\n'});
  }

  /** A port line: after the `:` comes the name, ended by a comma, then the
      sensor index, which is `atoi` of the rest of the line. */
  lemma PortLineFields(h: string, name: string, id: string)
    requires FieldFree(h, ':') && FieldFree(name, ',') && FieldFree(id, '\n')
    ensures ParsePortLine(h + ":" + name + "," + id) == Some(PortLine(name, Atoi(id)))
  {
    var r1 := name + "," + id;
    assert h + ":" + name + "," + id == h + ":" + r1;
    StrtokField(h, ':', r1, {':'});
    StrtokField(name, ',', id, {','});
    StrtokLast(id, {'\n'});
  }
}
