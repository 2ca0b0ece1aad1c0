/**
 * The TLS grain (src/grains/tls.rs): header arithmetic over a captured
 * Ethernet frame, the address and port tags, and which TLS handshake
 * messages become measurements. Decoding the TLS record is the rustls
 * library's work; its outcome is a parameter here, and the `Debug`
 * renderings of versions and cipher suites arrive as strings.
 */
module Tls {
  import opened Common
  import opened Text
  import opened Metrics

  /** Length of an untagged Ethernet header: the IPv4 header starts at this offset. */
  const ETH_HLEN: nat := 14

  /**
   * `iph_len`: the IHL field, the low nibble of the first IPv4 byte, counts
   * 32-bit words (section 3.1 of RFC 791); `<< 2` turns it into bytes.
   */
  function IphLen(buf: seq<u8>): (n: nat)
    requires |buf| > ETH_HLEN
    ensures n == 4 * (buf[ETH_HLEN] % 16)
    ensures n % 4 == 0 && n <= 60
  {
    Pow2Values();
    BitAndLowBits(buf[ETH_HLEN], 4);
    BitAnd(buf[ETH_HLEN], 0x0F) * 4
  }

  /** Where the TCP header starts: after the Ethernet and IPv4 headers. */
  function TcpStart(buf: seq<u8>): nat
    requires |buf| > ETH_HLEN
  {
    ETH_HLEN + IphLen(buf)
  }

  /** The bytes `tcp_len` and `tcp_payload_offset` read are inside the frame. */
  predicate HeadersInFrame(buf: seq<u8>)
  {
    |buf| > ETH_HLEN && |buf| > TcpStart(buf) + 12
  }

  /**
   * `tcp_len`: the Data Offset field, the high nibble of TCP header byte 12,
   * counts 32-bit words (section 3.1 of RFC 793); `>> 4` extracts it and
   * `<< 2` turns it into bytes.
   */
  function TcpLen(buf: seq<u8>): (n: nat)
    requires HeadersInFrame(buf)
    ensures n % 4 == 0 && n <= 60
    ensures n == 4 * (buf[TcpStart(buf) + 12] / 16)
  {
    (buf[ETH_HLEN + IphLen(buf) + 12] / 16) * 4
  }

  /** `tcp_payload_offset`: the TLS record starts after the three headers. */
  function TcpPayloadOffset(buf: seq<u8>): (off: nat)
    requires HeadersInFrame(buf)
    ensures ETH_HLEN <= off <= ETH_HLEN + 120
  {
    ETH_HLEN + IphLen(buf) + TcpLen(buf)
  }

  /** `u16::from(hi) << 8 | u16::from(lo)`: a 16-bit field in network byte order. */
  function NetworkU16(hi: u8, lo: u8): (v: u16)
    ensures v == 0x100 * (hi as int) + lo
  {
    NetworkU16Value(hi, lo);
    BitOr((hi * Pow2(8)) % 0x1_0000, lo)
  }

  /** The high byte shifted left by eight shares no bit with the low byte, so the or adds them. */
  lemma NetworkU16Value(hi: u8, lo: u8)
    ensures BitOr((hi * Pow2(8)) % 0x1_0000, lo) == 0x100 * (hi as int) + lo
  {
    Pow2Values();
    var shifted := hi * Pow2(8);
    assert shifted == 0x100 * hi;
    assert shifted % 0x1_0000 == shifted;
    BitOrDisjoint(hi, lo, 8);
  }

  /** `parse_tcp_ports`: (destination, source), the source port being the first field of the TCP header. */
  function ParseTcpPorts(buf: seq<u8>): (ports: (u16, u16))
    requires |buf| > ETH_HLEN && |buf| > TcpStart(buf) + 3
  {
    var offs := ETH_HLEN + IphLen(buf);
    var s := NetworkU16(buf[offs], buf[offs + 1]);
    var d := NetworkU16(buf[offs + 2], buf[offs + 3]);
    (d, s)
  }

  /** An IPv4 address, as `Ipv4Addr::new` takes its four octets. */
  datatype Ipv4Addr = Ipv4Addr(a: u8, b: u8, c: u8, d: u8)

  /** `Ipv4Addr`'s `Display`: the four octets in dotted decimal. */
  function Display(ip: Ipv4Addr): string
  {
    Dotted([ip.a, ip.b, ip.c, ip.d])
  }

  /** Numbers in decimal, separated by dots. */
  function Dotted(parts: seq<nat>): string
    requires parts != []
  {
    if |parts| == 1 then Decimal(parts[0]) else Decimal(parts[0]) + "." + Dotted(parts[1..])
  }

  /** `parse_ips`: (destination, source), read at IPv4 header bytes 16-19 and 12-15. */
  function ParseIps(buf: seq<u8>): (string, string)
    requires |buf| >= ETH_HLEN + 20
  {
    var s := Ipv4Addr(buf[ETH_HLEN + 12], buf[ETH_HLEN + 13], buf[ETH_HLEN + 14], buf[ETH_HLEN + 15]);
    var d := Ipv4Addr(buf[ETH_HLEN + 16], buf[ETH_HLEN + 17], buf[ETH_HLEN + 18], buf[ETH_HLEN + 19]);
    (Display(d), Display(s))
  }

  /** The bytes `tag_ip_and_ports` reads are inside the frame. */
  predicate AddressesInFrame(buf: seq<u8>)
  {
    |buf| >= ETH_HLEN + 20 && |buf| > TcpStart(buf) + 3
  }

  /** `tag_ip_and_ports`: addresses and ports under four fixed keys. */
  function TagIpAndPorts(buf: seq<u8>): (tags: Tags)
    requires AddressesInFrame(buf)
    ensures Keys(tags) == ["d_ip", "s_ip", "d_port", "s_port"]
  {
    var (dIp, sIp) := ParseIps(buf);
    var (dPort, sPort) := ParseTcpPorts(buf);
    [Tag("d_ip", dIp), Tag("s_ip", sIp), Tag("d_port", Decimal(dPort)), Tag("s_port", Decimal(sPort))]
  }

  /** Two addresses with the same rendering are the same address. */
  lemma DisplayInjective(x: Ipv4Addr, y: Ipv4Addr)
    requires Display(x) == Display(y)
    ensures x == y
  {
    DottedInjective([x.a, x.b, x.c, x.d], [y.a, y.b, y.c, y.d]);
  }

  /** Dotted renderings of equally long lists are equal only for equal lists. */
  lemma {:induction false} DottedInjective(p: seq<nat>, q: seq<nat>)
    requires p != [] && |p| == |q| && Dotted(p) == Dotted(q)
    ensures p == q
  {
    if |p| == 1 {
      DecimalInjective(p[0], q[0]);
    } else {
      FirstField(p[0], Dotted(p[1..]), q[0], Dotted(q[1..]));
      DottedInjective(p[1..], q[1..]);
      assert p == [p[0]] + p[1..] && q == [q[0]] + q[1..];
    }
  }

  /** `m.rest` and `n.rest'` agree exactly when the leading numbers and the rests do. */
  lemma FirstField(m: nat, rest: string, n: nat, rest': string)
    requires Decimal(m) + "." + rest == Decimal(n) + "." + rest'
    ensures m == n && rest == rest'
  {
    NoSeparatorInDecimal(m);
    NoSeparatorInDecimal(n);
    assert Decimal(m) + "." + rest == Decimal(m) + ['.'] + rest;
    assert Decimal(n) + "." + rest' == Decimal(n) + ['.'] + rest';
    SplitOnceAt(Decimal(m), rest, '.');
    SplitOnceAt(Decimal(n), rest', '.');
    DecimalInjective(m, n);
  }

  /** An IPv4 header whose IHL field agrees with its length and that holds both addresses. */
  predicate WellFormedIp(ip: seq<u8>)
  {
    |ip| >= 20 && |ip| == 4 * (ip[0] % 16)
  }

  /** A TCP header whose Data Offset field agrees with its length and that holds both ports. */
  predicate WellFormedTcp(tcp: seq<u8>)
  {
    |tcp| >= 20 && |tcp| == 4 * (tcp[12] / 16)
  }

  /** The headers' own length fields lead the arithmetic exactly to the payload. */
  lemma PayloadOffsetOfFrame(eth: seq<u8>, ip: seq<u8>, tcp: seq<u8>, payload: seq<u8>)
    requires |eth| == ETH_HLEN && WellFormedIp(ip) && WellFormedTcp(tcp)
    ensures var buf := eth + ip + tcp + payload;
            HeadersInFrame(buf) && AddressesInFrame(buf)
            && TcpPayloadOffset(buf) == |eth| + |ip| + |tcp|
            && buf[TcpPayloadOffset(buf)..] == payload
  {
    var buf := eth + ip + tcp + payload;
    assert buf[ETH_HLEN] == ip[0];
    assert IphLen(buf) == |ip|;
    assert buf[ETH_HLEN + |ip| + 12] == tcp[12];
  }

  /** Addresses come from IPv4 header bytes 12-19 and ports from the first four TCP header bytes, destination first. */
  lemma TagsOfFrame(eth: seq<u8>, ip: seq<u8>, tcp: seq<u8>, payload: seq<u8>)
    requires |eth| == ETH_HLEN && WellFormedIp(ip) && WellFormedTcp(tcp)
    ensures var buf := eth + ip + tcp + payload;
            AddressesInFrame(buf)
            && TagIpAndPorts(buf)
               == [Tag("d_ip", Display(Ipv4Addr(ip[16], ip[17], ip[18], ip[19]))),
                   Tag("s_ip", Display(Ipv4Addr(ip[12], ip[13], ip[14], ip[15]))),
                   Tag("d_port", Decimal(0x100 * (tcp[2] as int) + tcp[3])),
                   Tag("s_port", Decimal(0x100 * (tcp[0] as int) + tcp[1]))]
  {
    var buf := eth + ip + tcp + payload;
    PayloadOffsetOfFrame(eth, ip, tcp, payload);
    assert IphLen(buf) == |ip|;
    assert buf[ETH_HLEN..ETH_HLEN + 20] == ip[..20];
    assert buf[TcpStart(buf)..TcpStart(buf) + 4] == tcp[..4];
    IpsOfFrame(buf, ip);
    PortsOfFrame(buf, tcp);
  }

  /** `parse_ips` reads the addresses at IPv4 header bytes 16-19 and 12-15. */
  lemma IpsOfFrame(buf: seq<u8>, ip: seq<u8>)
    requires |buf| >= ETH_HLEN + 20 && |ip| >= 20 && buf[ETH_HLEN..ETH_HLEN + 20] == ip[..20]
    ensures ParseIps(buf) == (Display(Ipv4Addr(ip[16], ip[17], ip[18], ip[19])),
                              Display(Ipv4Addr(ip[12], ip[13], ip[14], ip[15])))
  {
    forall j | 12 <= j < 20
      ensures buf[ETH_HLEN + j] == ip[j]
    {
      assert buf[ETH_HLEN..ETH_HLEN + 20][j] == ip[..20][j];
    }
  }

  /** `parse_tcp_ports` reads the ports at TCP header bytes 2-3 and 0-1. */
  lemma PortsOfFrame(buf: seq<u8>, tcp: seq<u8>)
    requires AddressesInFrame(buf) && |tcp| >= 4 && buf[TcpStart(buf)..TcpStart(buf) + 4] == tcp[..4]
    ensures ParseTcpPorts(buf) == (0x100 * (tcp[2] as int) + tcp[3], 0x100 * (tcp[0] as int) + tcp[1])
  {
    var offs := TcpStart(buf);
    forall j | 0 <= j < 4
      ensures buf[offs + j] == tcp[j]
    {
      assert buf[offs..offs + 4][j] == tcp[..4][j];
    }
  }

  /** The record types of section 6.2.1 of RFC 5246, as rustls names them. */
  datatype ContentType = ChangeCipherSpec | Alert | Handshake | ApplicationData | Heartbeat | Unknown(code: u8)

  /** One entry of the SNI extension: a host name, or a name of another type. */
  datatype ServerName = HostName(name: string) | OtherName

  /**
   * The decoded handshake body. Cipher suites and versions are their `Debug`
   * renderings; `alpn` is the negotiated protocol when it is valid UTF-8.
   */
  datatype HandshakePayload =
    | ClientHello(cipherSuites: seq<string>, clientVersion: string, sni: Option<seq<ServerName>>)
    | ServerHello(cipherSuite: string, alpn: Option<string>)
    | OtherHandshake

  /**
   * What `TLSMessage::read_bytes` and `decode_payload` make of the bytes
   * after the TCP header: the record type, its version, and the handshake
   * body when the payload decodes as one.
   */
  datatype Record = Record(typ: ContentType, version: string, handshake: Option<HandshakePayload>)

  /** The record carries a decoded handshake: the point where `tls_to_message` starts building tags. */
  predicate IsHandshake(rec: Option<Record>)
  {
    rec.Some? && rec.value.typ == Handshake && rec.value.handshake.Some?
  }

  /** `msg`: a counter and meter named after the handshake message, counting one. */
  function Msg(name: string, tags: Tags, now: u64): Option<Message>
  {
    Some(Single(NewMeasurement(COUNTER + METER, "tls.handshake." + name, Count(1), tags, now)))
  }

  /** The SNI entries that are host names, in order. */
  function HostNames(names: seq<ServerName>): (hosts: seq<string>)
    ensures |hosts| <= |names|
    ensures forall h :: h in hosts <==> HostName(h) in names
  {
    if names == [] then []
    else
      var rest := HostNames(names[1..]);
      assert names == [names[0]] + names[1..];
      if names[0].HostName? then [names[0].name] + rest else rest
  }

  /** The host names of a concatenation are those of each half, in order. */
  lemma {:induction false} HostNamesConcat(a: seq<ServerName>, b: seq<ServerName>)
    ensures HostNames(a + b) == HostNames(a) + HostNames(b)
  {
    if a == [] {
      assert a + b == b;
    } else {
      assert (a + b)[0] == a[0];
      assert (a + b)[1..] == a[1..] + b;
      HostNamesConcat(a[1..], b);
    }
  }

  /** `parse_clienthello`: the offered suites, the client version and, with an SNI extension, its host names. */
  function ParseClientHello(payload: HandshakePayload, tags: Tags, now: u64): (r: Option<Message>)
    requires payload.ClientHello?
    ensures r.Some? && r.value.Single? && r.value.measurement.name == "tls.handshake.clienthello"
    ensures var m := r.value.measurement;
            && m.timestamp == now && m.kind == COUNTER + METER && m.value == Count(1)
            && |m.tags| >= |tags| && m.tags[..|tags|] == tags
            && Keys(m.tags[|tags|..]) == ["ciphersuites_list", "client_version"]
                                         + (if payload.sni.Some? then ["sni_list"] else [])
    ensures var m := r.value.measurement;
            && |m.tags| >= |tags| + 2
            && m.tags[|tags|] == Tag("ciphersuites_list", Join(payload.cipherSuites, ","))
            && m.tags[|tags| + 1] == Tag("client_version", payload.clientVersion)
            && (payload.sni.Some? ==> m.tags[|tags| + 2] == Tag("sni_list", Join(HostNames(payload.sni.value), ",")))
  {
    var sniTags := if payload.sni.Some? then [Tag("sni_list", Join(HostNames(payload.sni.value), ","))] else [];
    Msg("clienthello",
        tags + [Tag("ciphersuites_list", Join(payload.cipherSuites, ",")),
                Tag("client_version", payload.clientVersion)] + sniTags,
        now)
  }

  /** `parse_serverhello`: the chosen suite and, when present and valid UTF-8, the negotiated protocol. */
  function ParseServerHello(payload: HandshakePayload, tags: Tags, now: u64): (r: Option<Message>)
    requires payload.ServerHello?
    ensures r.Some? && r.value.Single? && r.value.measurement.name == "tls.handshake.serverhello"
    ensures var m := r.value.measurement;
            && m.timestamp == now && m.kind == COUNTER + METER && m.value == Count(1)
            && |m.tags| >= |tags| && m.tags[..|tags|] == tags
            && Keys(m.tags[|tags|..]) == ["ciphersuite_str"] + (if payload.alpn.Some? then ["alpn_str"] else [])
    ensures var m := r.value.measurement;
            && |m.tags| >= |tags| + 1
            && m.tags[|tags|] == Tag("ciphersuite_str", payload.cipherSuite)
            && (payload.alpn.Some? ==> m.tags[|tags| + 1] == Tag("alpn_str", payload.alpn.value))
  {
    var alpnTags := if payload.alpn.Some? then [Tag("alpn_str", payload.alpn.value)] else [];
    Msg("serverhello", tags + [Tag("ciphersuite_str", payload.cipherSuite)] + alpnTags, now)
  }

  /**
   * `tls_to_message`. `read` is the rustls decoding of the bytes after the
   * TCP header. The frame must hold the headers the offset arithmetic reads,
   * and, once a handshake is decoded, the addresses and ports.
   */
  function TlsToMessage(buf: seq<u8>, read: seq<u8> -> Option<Record>, now: u64): (r: Option<Message>)
    requires HeadersInFrame(buf) && TcpPayloadOffset(buf) <= |buf|
    requires IsHandshake(read(buf[TcpPayloadOffset(buf)..])) ==> |buf| >= ETH_HLEN + 20
    ensures var rec := read(buf[TcpPayloadOffset(buf)..]);
            r.Some? <==> IsHandshake(rec) && !rec.value.handshake.value.OtherHandshake?
    ensures var rec := read(buf[TcpPayloadOffset(buf)..]);
            r.Some? ==>
              && r.value.Single?
              && var m := r.value.measurement;
              && m.timestamp == now && m.kind == COUNTER + METER && m.value == Count(1)
              && m.name == (if rec.value.handshake.value.ClientHello? then "tls.handshake.clienthello"
                            else "tls.handshake.serverhello")
              && |m.tags| >= 5
              && m.tags[..5] == TagIpAndPorts(buf) + [Tag("tls_version", rec.value.version)]
  {
    var offset := TcpPayloadOffset(buf);
    var packet := read(buf[offset..]);
    if !IsHandshake(packet) then None
    else
      var tags := TagIpAndPorts(buf) + [Tag("tls_version", packet.value.version)];
      match packet.value.handshake.value
      case ClientHello(_, _, _) => ParseClientHello(packet.value.handshake.value, tags, now)
      case ServerHello(_, _) => ParseServerHello(packet.value.handshake.value, tags, now)
      case OtherHandshake => None
  }
}
