/**
 * The per-request pipeline `BaseRequestHandler.handle` (dnsserver/dumbdns.py:133-156)
 * for the UDP and TCP handlers: read, parse, resolve, pack, frame and send; any
 * exception on the way drops the request.
 *
 * dnslib's wire parser and packer are not part of this model: they are parameters,
 * the parser one that may fail.
 */
module Handler {
  import opened Wrappers
  import opened Octets
  import opened Framing
  import opened Zones
  import opened Resolver

  /** Which handler subclass serves the request. */
  datatype Transport = Udp | Tcp

  /** How one request ends, one case per log line of `handle`: the bytes handed to the socket, or silence. */
  datatype Outcome = Replied(wire: Bytes) | IgnoredDomain | BadPacket

  /** `self.get_data()` of the transport's handler. */
  function GetData(t: Transport, received: Bytes): (r: Result<Bytes, FrameError>)
    ensures t == Udp ==> r.Ok?
    ensures r.Ok? ==> |r.value| <= |received|
  {
    match t
    case Udp => Ok(UdpGetData(received))
    case Tcp => TcpGetData(received)
  }

  /** The bytes `self.send_data(data)` writes: the datagram itself over UDP, the framed message over TCP. */
  function SendData(t: Transport, data: Bytes): (r: Result<Bytes, FrameError>)
    ensures r.Ok? <==> t == Udp || |data| <= 65535
    ensures r.Ok? ==> |data| <= |r.value| && r.value[|r.value| - |data|..] == data
  {
    match t
    case Udp => Ok(data)
    case Tcp => TcpSendData(data)
  }

  /** The request `DNSRecord.parse(self.get_data())` yields, if reading and parsing both succeed. */
  function Received(t: Transport, received: Bytes, parse: Bytes -> Option<Request>): Option<Request> {
    var data := GetData(t, received);
    if data.Err? then None else parse(data.value)
  }

  /**
   * `handle`: a reply is sent only when reading, parsing and resolving succeed and the
   * resolver returns a reply; the bytes sent are the packed reply, framed; every failure
   * sends nothing.
   */
  method Handle(z: Zone, t: Transport, received: Bytes, parse: Bytes -> Option<Request>, pack: Message -> Bytes)
    returns (out: Outcome)
    ensures var req := Received(t, received, parse);
      && (out.IgnoredDomain? <==> req.Some? && Resolve(z, req.value).NoReply?)
      && (out.Replied? <==> req.Some? && Resolve(z, req.value).Reply? && SendData(t, pack(Resolve(z, req.value).msg)).Ok?)
      && (out.Replied? ==> out.wire == SendData(t, pack(Resolve(z, req.value).msg)).value)
    ensures out.Replied? ==> var req := Received(t, received, parse).value;
      && Resolve(z, req).msg.header.id == req.id
      && (t == Tcp ==> TcpGetDataUnstripped(out.wire) == Ok(pack(Resolve(z, req).msg)))
      && (t == Udp ==> out.wire == pack(Resolve(z, req).msg))
  {
    var data := GetData(t, received);
    if data.Err? {
      return BadPacket;
    }
    var request := parse(data.value);
    if request.None? {
      return BadPacket;
    }
    var response := DnsResponse(z, request.value);
    match response
    case Raised =>
      out := BadPacket;
    case NoReply =>
      out := IgnoredDomain;
    case Reply(reply) =>
      ResolveReplyHeader(z, request.value);
      var packed := pack(reply.Value());
      var wire := SendData(t, packed);
      if wire.Err? {
        out := BadPacket;
      } else {
        if t == Tcp {
          TcpSendDataShape(packed);
          TcpRoundTripUnstripped(packed);
        }
        out := Replied(wire.value);
      }
  }

  /** Over TCP the packed reply must fit the 16-bit length prefix; a longer one is dropped. */
  lemma TcpOversizedReplyDropped(packed: Bytes)
    requires |packed| > 65535
    ensures SendData(Tcp, packed) == Err(StructError)
  {
  }
}
