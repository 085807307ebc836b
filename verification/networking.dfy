/** The HTTP GET request that carries one batch of readings to the server:
    the request line with the board's table name and one
    `&Port_ID[]=<name>&Value[]=<value>` pair per active port, then a `Host`
    header.  The firmware also computes a capacity to reserve before building
    the string. */
module Networking {
  import opened Basics
  import opened FloatText
  import opened Structs

  const GET_REQ_START: string := "GET "
  const ID_GET_STR: string := "Board_ID="
  const PORT_GET_STR: string := "&Port_ID[]="
  const VALUE_GET_STR: string := "&Value[]="
  const REQ_HEADER: string := "Host: "
  const GET_REQ_END: string := "\r\n"

  /** The query-string pair of one port. */
  function Field(p: PortInfo): string {
    PORT_GET_STR + p.name + VALUE_GET_STR + FormatF(p.value)
  }

  /** The pairs of the active ports, in table order; inactive ports add
      nothing. */
  function Fields(ports: seq<PortInfo>): string
  {
    if |ports| == 0 then ""
    else (if IsActive(ports[0]) then Field(ports[0]) else "") + Fields(ports[1..])
  }

  /** The request the firmware sends for a port table. */
  function Request(ports: seq<PortInfo>, specs: BoardSpecs): string {
    GET_REQ_START + specs.remoteDir + "?" + ID_GET_STR + specs.databaseTableName
    + Fields(ports) + "\r\n" + REQ_HEADER + specs.hostName + GET_REQ_END
  }

  lemma {:induction false} FieldsSnoc(ports: seq<PortInfo>, p: PortInfo)
    ensures Fields(ports + [p]) == Fields(ports) + (if IsActive(p) then Field(p) else "")
    decreases |ports|
  {
    if |ports| == 0 {
      assert [p][1..] == [];
      assert ports + [p] == [p];
    } else {
      assert (ports + [p])[1..] == ports[1..] + [p];
      FieldsSnoc(ports[1..], p);
      ConcatAssoc(if IsActive(ports[0]) then Field(ports[0]) else "", Fields(ports[1..]),
                  if IsActive(p) then Field(p) else "");
    }
  }

  /** Only active ports contribute: the fields of a table are those of its
      active ports. */
  lemma {:induction false} FieldsOfActive(ports: seq<PortInfo>)
    ensures Fields(ActivePorts(ports)) == Fields(ports)
    decreases |ports|
  {
    if |ports| > 0 {
      FieldsOfActive(ports[1..]);
      if IsActive(ports[0]) {
        assert ActivePorts(ports) == [ports[0]] + ActivePorts(ports[1..]);
        assert ([ports[0]] + ActivePorts(ports[1..]))[1..] == ActivePorts(ports[1..]);
      } else {
        assert ActivePorts(ports) == ActivePorts(ports[1..]);
      }
    }
  }

  /** `makeGetReqStr(Ports, Specs)`: the request for the given ports, and the
      `message_size` reserved for it.  The reservation counts `"GET "` twice,
      so it is always four more than the length of the request. */
  method MakeGetReqStrFor(ports: seq<PortInfo>, specs: BoardSpecs) returns (message: string, reserved: int)
    ensures message == Request(ports, specs)
    ensures reserved == |message| + 4
  {
    var size := |GET_REQ_START| + |specs.remoteDir| + |specs.databaseTableName| + 1;
    var extras := |PORT_GET_STR| + |VALUE_GET_STR|;
    var i := 0;
    while i < |ports|
      invariant 0 <= i <= |ports|
      invariant size == |GET_REQ_START| + |specs.remoteDir| + |specs.databaseTableName| + 1
                        + |Fields(ports[..i])|
    {
      FieldsSnoc(ports[..i], ports[i]);
      assert ports[..i + 1] == ports[..i] + [ports[i]];
      if IsActive(ports[i]) {
        size := size + |ports[i].name| + |FormatF(ports[i].value)| + extras;
      }
      i := i + 1;
    }
    size := size + |ID_GET_STR| + |GET_REQ_START| + |GET_REQ_END|;
    size := size + |REQ_HEADER| + |specs.hostName| + |"\r\n"|;

    message := GET_REQ_START;
    reserved := size;
    message := message + specs.remoteDir;
    message := message + "?";
    message := message + ID_GET_STR;
    message := message + specs.databaseTableName;
    var head := message;
    i := 0;
    while i < |ports|
      invariant 0 <= i <= |ports|
      invariant message == head + Fields(ports[..i])
    {
      FieldsSnoc(ports[..i], ports[i]);
      assert ports[..i + 1] == ports[..i] + [ports[i]];
      if IsActive(ports[i]) {
        ghost var before := message;
        message := message + PORT_GET_STR;
        message := message + ports[i].name;
        message := message + VALUE_GET_STR;
        message := message + FormatF(ports[i].value);
        Concat4(before, PORT_GET_STR, ports[i].name, VALUE_GET_STR, FormatF(ports[i].value));
        ConcatAssoc(head, Fields(ports[..i]), Field(ports[i]));
      } else {
        assert Fields(ports[..i]) + "" == Fields(ports[..i]);
      }
      i := i + 1;
    }
    assert ports[..|ports|] == ports;
    assert message == head + Fields(ports);
    message := message + "\r\n";
    message := message + REQ_HEADER;
    message := message + specs.hostName;
    message := message + GET_REQ_END;
  }

  /** `makeGetReqStr(Specs)`: the same construction over the board's own port
      table. */
  method MakeGetReqStr(specs: BoardSpecs) returns (message: string, reserved: int)
    ensures message == Request(specs.ports, specs)
    ensures reserved == |message| + 4
  {
    message, reserved := MakeGetReqStrFor(specs.ports, specs);
  }
}
