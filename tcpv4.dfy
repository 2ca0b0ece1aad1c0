/**
 * The TCPv4 grain's event handlers (src/grains/tcpv4.rs): connection and
 * volume events become measurements tagged with the connection. Turning
 * the raw event bytes into a `Connection` is an unchecked memory read and is
 * not part of this model; so are the helpers `to_string` (of the command
 * name), `to_le` and the `Ipv6Addr` display, which are the fields of
 * `Formatters`.
 */
module Tcpv4 {
  import opened Common
  import opened Text
  import opened Metrics

  const IPPROTO_TCP: u8 := 6
  const IPPROTO_UDP: u8 := 17

  /** The probe's connection record; addresses are IPv6 (IPv4 ones mapped). */
  datatype Connection = Connection(comm: seq<u8>, pid: u32, saddr: seq<u8>, daddr: seq<u8>,
                                   sport: u16, dport: u16, typ: u8)

  /** The probe's volume event: bytes sent or received on a connection. */
  datatype VolumeMessage = Send(conn: Connection, size: u64) | Receive(conn: Connection, size: u64)

  /** The helpers the tags are rendered with. */
  datatype Formatters = Formatters(text: seq<u8> -> string, ipv6: seq<u8> -> string, toLe: u16 -> u16)

  /** The two event streams the grain's programs emit. */
  datatype Handler = IpConnections | IpVolume

  /** `get_handler`: the stream's id picks the handler; any other id is unreachable. */
  function GetHandler(id: string): (h: Handler)
    requires id == "ip_connections" || id == "ip_volume"
    ensures h == IpConnections <==> id == "ip_connections"
  {
    if id == "ip_connections" then IpConnections else IpVolume
  }

  /** The protocol label: TCP and UDP by IANA number, anything else unknown. */
  function ProtoLabel(typ: u8): (proto: string)
    ensures proto == "tcp" <==> typ == IPPROTO_TCP
    ensures proto == "udp" <==> typ == IPPROTO_UDP
    ensures proto == "unknown" <==> typ != IPPROTO_TCP && typ != IPPROTO_UDP
  {
    if typ == IPPROTO_TCP then "tcp"
    else if typ == IPPROTO_UDP then "udp"
    else "unknown"
  }

  /**
   * `conn_tags`: the process and both endpoints, in this order; the command
   * name and the two addresses are rendered by the formatters (the numbers
   * are read back by `ConnTagsNumbers`).
   */
  function ConnTags(conn: Connection, fmt: Formatters): (tags: Tags)
    ensures Keys(tags) == ["process_str", "process_id", "d_ip", "s_ip", "d_port", "s_port"]
    ensures |tags| == 6 && tags[0].value == fmt.text(conn.comm)
            && tags[2].value == fmt.ipv6(conn.daddr) && tags[3].value == fmt.ipv6(conn.saddr)
  {
    [Tag("process_str", fmt.text(conn.comm)),
     Tag("process_id", Decimal(conn.pid)),
     Tag("d_ip", fmt.ipv6(conn.daddr)),
     Tag("s_ip", fmt.ipv6(conn.saddr)),
     Tag("d_port", Decimal(fmt.toLe(conn.dport))),
     Tag("s_port", Decimal(fmt.toLe(conn.sport)))]
  }

  /** The process id and the ports read back from their tags. */
  lemma ConnTagsNumbers(conn: Connection, fmt: Formatters)
    ensures var tags := ConnTags(conn, fmt);
            && AllDigits(tags[1].value) && DigitsValue(tags[1].value) == conn.pid
            && AllDigits(tags[4].value) && DigitsValue(tags[4].value) == fmt.toLe(conn.dport)
            && AllDigits(tags[5].value) && DigitsValue(tags[5].value) == fmt.toLe(conn.sport)
  {
    DecimalValue(conn.pid);
    DecimalValue(fmt.toLe(conn.dport));
    DecimalValue(fmt.toLe(conn.sport));
  }

  /** The `ip_connections` handler: one outgoing connection counted. */
  function ConnectionMeasurement(conn: Connection, fmt: Formatters, now: u64): (msg: Option<Message>)
    ensures msg.Some? && msg.value.Single?
    ensures var m := msg.value.measurement;
            && m.name == "connection.out" && m.value == Count(1)
            && m.kind == COUNTER + HISTOGRAM + METER && m.tags == ConnTags(conn, fmt) && m.timestamp == now
  {
    Some(Single(NewMeasurement(COUNTER + HISTOGRAM + METER, "connection.out", Count(1), ConnTags(conn, fmt), now)))
  }

  /** The `ip_volume` handler: the bytes moved, named by direction and tagged with the protocol. */
  function VolumeMeasurement(event: VolumeMessage, fmt: Formatters, now: u64): (msg: Option<Message>)
    ensures msg.Some? && msg.value.Single?
    ensures var m := msg.value.measurement;
            && (m.name == "volume.out" <==> event.Send?)
            && (m.name == "volume.in" <==> event.Receive?)
            && m.value == Byte(event.size) && m.kind == COUNTER + HISTOGRAM && m.timestamp == now
            && m.tags == ConnTags(event.conn, fmt) + [Tag("proto", ProtoLabel(event.conn.typ))]
  {
    var (name, conn, vol) := match event
      case Send(conn, size) => ("volume.out", conn, size)
      case Receive(conn, size) => ("volume.in", conn, size);
    var proto := ProtoLabel(conn.typ);
    var tags := ConnTags(conn, fmt) + [Tag("proto", proto)];
    Some(Single(NewMeasurement(COUNTER + HISTOGRAM, name, Byte(vol), tags, now)))
  }

  /** Volume tags are the connection tags plus exactly one key, `proto`. */
  lemma VolumeTagKeys(event: VolumeMessage, fmt: Formatters, now: u64)
    ensures Keys(VolumeMeasurement(event, fmt, now).value.measurement.tags)
            == Keys(ConnTags(event.conn, fmt)) + ["proto"]
  {
  }
}
