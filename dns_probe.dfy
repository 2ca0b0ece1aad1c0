/**
 * The XDP program `dns_queries` (ingraind-probes/src/dns/main.rs): it
 * never drops a packet, and it reports a packet to the `events` perf map
 * only when it can see the IP and transport headers and a 12-byte DNS
 * header whose OPCODE is QUERY. The packet accessors of the XDP context are
 * not part of this model; their outcomes are the fields of `Context`.
 */
module DnsProbe {
  import opened Common

  datatype XdpAction = Aborted | Drop | Pass | Tx | Redirect

  datatype IpHeader = IpHeader(saddr: u32, daddr: u32)

  datatype Transport = Transport(source: u16, dest: u16)

  /** The payload after the transport header: where it starts and its bytes. */
  datatype Data = Data(offset: nat, bytes: seq<u8>)

  /** What `ctx.ip()`, `ctx.transport()`, `ctx.data()` and `ctx.len()` give. */
  datatype Context = Context(ip: Option<IpHeader>, transport: Option<Transport>, data: Option<Data>, len: nat)

  datatype Event = Event(saddr: u32, daddr: u32, sport: u16, dport: u16)

  /** `MapData::with_payload`: the event, the payload offset and the packet length. */
  datatype EventRecord = EventRecord(event: Event, offset: u32, len: u32)

  /** `header[2] >> 3 & 0xF`: the shift binds tighter, so this is the 4-bit field above bit 3. */
  function Opcode(flags: u8): (op: nat)
    ensures op == (flags / 8) % 16
  {
    Pow2Values();
    BitAndLowBits(flags / 8, 4);
    BitAnd(flags / 8, 0xF)
  }

  /** `data.slice(12)`: the DNS header, when the payload holds all of it. */
  function Slice(data: Data, n: nat): Option<seq<u8>>
  {
    if |data.bytes| >= n then Some(data.bytes[..n]) else None
  }

  /** `as u32` on a `usize`: keeps the low 32 bits. */
  function AsU32(n: nat): u32
  {
    n % 0x1_0000_0000
  }

  /** The probe: the action it returns and the record it inserts, if any. */
  function Probe(ctx: Context): (r: (XdpAction, Option<EventRecord>))
    ensures r.0 == Pass
    ensures r.1.Some? <==>
              && ctx.ip.Some? && ctx.transport.Some? && ctx.data.Some?
              && |ctx.data.value.bytes| >= 12 && (ctx.data.value.bytes[2] / 8) % 16 == 0
    ensures r.1.Some? ==>
              && r.1.value.event == Event(ctx.ip.value.saddr, ctx.ip.value.daddr,
                                          ctx.transport.value.source, ctx.transport.value.dest)
              && r.1.value.offset == ctx.data.value.offset % 0x1_0000_0000
              && r.1.value.len == ctx.len % 0x1_0000_0000
  {
    if ctx.ip.None? || ctx.transport.None? then (Pass, None)
    else
      var (ip, transport) := (ctx.ip.value, ctx.transport.value);
      if ctx.data.None? then (Pass, None)
      else
        var data := ctx.data.value;
        match Slice(data, 12)
        case None => (Pass, None)
        case Some(header) =>
          if Opcode(header[2]) != 0 then (Pass, None)
          else
            var event := Event(ip.saddr, ip.daddr, transport.source, transport.dest);
            (Pass, Some(EventRecord(event, AsU32(data.offset), AsU32(ctx.len))))
  }

  /**
   * The third byte of a DNS header as section 4.1.1 of RFC 1035 lays it
   * out: QR in bit 7, OPCODE in bits 6-3, then AA, TC and RD.
   */
  function FlagsByte(qr: bool, opcode: nat, aa: bool, tc: bool, rd: bool): u8
    requires opcode < 16
  {
    (if qr then 0x80 else 0) + opcode * 8 + (if aa then 4 else 0) + (if tc then 2 else 0) + (if rd then 1 else 0)
  }

  /** The probe's bit test reads back exactly the OPCODE field, whatever the other flags. */
  lemma OpcodeOfFlags(qr: bool, opcode: nat, aa: bool, tc: bool, rd: bool)
    requires opcode < 16
    ensures Opcode(FlagsByte(qr, opcode, aa, tc, rd)) == opcode
  {
    var low := (if aa then 4 else 0) + (if tc then 2 else 0) + (if rd then 1 else 0);
    var b := FlagsByte(qr, opcode, aa, tc, rd);
    DivModUnique(b, 8, (if qr then 16 else 0) + opcode, low);
    DivModUnique(b / 8, 16, if qr then 1 else 0, opcode);
  }

  /**
   * Queries are reported and every other opcode is not; the QR bit is not
   * looked at, so responses to queries are reported too.
   */
  lemma ReportsQueriesOnly(ctx: Context, qr: bool, opcode: nat, aa: bool, tc: bool, rd: bool)
    requires opcode < 16
    requires ctx.ip.Some? && ctx.transport.Some? && ctx.data.Some? && |ctx.data.value.bytes| >= 12
    requires ctx.data.value.bytes[2] == FlagsByte(qr, opcode, aa, tc, rd)
    ensures Probe(ctx).1.Some? <==> opcode == 0
  {
    OpcodeOfFlags(qr, opcode, aa, tc, rd);
  }
}
