/**
 * Byte-level transport framing of the responder (dnsserver/dumbdns.py:158-179).
 *
 * Both transports first apply Python's `bytes.strip()` to what they received.
 * Over UDP that is all `get_data` does; over TCP the stripped buffer must start
 * with a 2-byte big-endian length (section 4.2.2 of RFC 1035) that equals the
 * number of bytes after it. Outbound, TCP prefixes the message with its length.
 */
module Framing {
  import opened Wrappers
  import opened Octets

  /** Number of bytes the TCP handler asks `recv` for. */
  const RecvSize: nat := 8192

  /** Why the framing code raises. */
  datatype FrameError =
    | StructError    // struct.pack / struct.unpack of '>H' refused its argument
    | WrongSize      // declared length smaller than the payload
    | TooBig         // declared length larger than the payload

  /** The ASCII whitespace bytes `bytes.strip()` removes: space, \t, \n, \x0b, \x0c, \r. */
  predicate IsSpace(b: byte) {
    b == 32 || 9 <= b <= 13
  }

  /** `d` has no whitespace byte at either end. */
  predicate NoEdgeSpace(d: Bytes) {
    d == [] || (!IsSpace(d[0]) && !IsSpace(d[|d| - 1]))
  }

  /** `bytes.lstrip()`: drops the longest whitespace prefix. */
  function StripLeft(d: Bytes): (r: Bytes)
    ensures |r| <= |d| && r == d[|d| - |r|..]
    ensures forall k :: 0 <= k < |d| - |r| ==> IsSpace(d[k])
    ensures r == [] || !IsSpace(r[0])
  {
    if |d| > 0 && IsSpace(d[0]) then StripLeft(d[1..]) else d
  }

  /** `bytes.rstrip()`: drops the longest whitespace suffix. */
  function StripRight(d: Bytes): (r: Bytes)
    ensures |r| <= |d| && r == d[..|r|]
    ensures forall k :: |r| <= k < |d| ==> IsSpace(d[k])
    ensures r == [] || !IsSpace(r[|r| - 1])
  {
    if |d| > 0 && IsSpace(d[|d| - 1]) then StripRight(d[..|d| - 1]) else d
  }

  /** `bytes.strip()`: what is left after removing whitespace at both ends. */
  function Strip(d: Bytes): (r: Bytes)
    ensures |r| <= |d|
  {
    StripRight(StripLeft(d))
  }

  /** What `strip` keeps has no whitespace at its ends. */
  lemma StripNoEdge(d: Bytes)
    ensures NoEdgeSpace(Strip(d))
  {
    var l := StripLeft(d);
    var r := StripRight(l);
    if r != [] {
      assert r[0] == l[0];
    }
  }

  /** What `strip` keeps is the slice of the input after the leading whitespace, with only whitespace after it. */
  lemma StripIsTrimmedSlice(d: Bytes)
    ensures var r, i := Strip(d), |d| - |StripLeft(d)|;
      && i + |r| <= |d| && r == d[i..i + |r|]
      && (forall k :: 0 <= k < i ==> IsSpace(d[k]))
      && (forall k :: i + |r| <= k < |d| ==> IsSpace(d[k]))
  {
    var l := StripLeft(d);
    var r := StripRight(l);
    var i := |d| - |l|;
    assert l == d[i..];
    assert r == l[..|r|];
    assert r == d[i..i + |r|];
    forall k | i + |r| <= k < |d| ensures IsSpace(d[k]) {
      assert d[k] == l[k - i];
    }
  }

  /** Stripping a buffer with no whitespace at its ends leaves it unchanged. */
  lemma StripNoEdgeSpace(d: Bytes)
    requires NoEdgeSpace(d)
    ensures Strip(d) == d
  {
  }

  /** Stripping twice is stripping once. */
  lemma StripIdempotent(d: Bytes)
    ensures Strip(Strip(d)) == Strip(d)
  {
    StripNoEdge(d);
    StripNoEdgeSpace(Strip(d));
  }

  /** `struct.unpack('>H', b)`: a 2-byte big-endian unsigned value; any other length raises. */
  function UnpackU16(b: Bytes): (r: Result<nat, FrameError>)
    ensures r.Ok? <==> |b| == 2
    ensures r.Ok? ==> r.value <= 65535
  {
    if |b| != 2 then Err(StructError) else Ok(b[0] as nat * 256 + b[1] as nat)
  }

  /** `struct.pack('>H', n)`: raises when `n` does not fit in 16 bits. */
  function PackU16(n: nat): (r: Result<Bytes, FrameError>)
    ensures r.Ok? <==> n <= 65535
    ensures r.Ok? ==> |r.value| == 2
  {
    if n > 65535 then Err(StructError) else Ok([(n / 256) as byte, (n % 256) as byte])
  }

  /** Unpacking a packed value gives it back. */
  lemma UnpackPackU16(n: nat)
    requires n <= 65535
    ensures PackU16(n).Ok? && |PackU16(n).value| == 2
    ensures UnpackU16(PackU16(n).value) == Ok(n)
  {
  }

  /** Packing an unpacked value gives back the two bytes. */
  lemma PackUnpackU16(b: Bytes)
    requires |b| == 2
    ensures UnpackU16(b).Ok? && UnpackU16(b).value <= 65535
    ensures PackU16(UnpackU16(b).value) == Ok(b)
  {
    var n := b[0] as nat * 256 + b[1] as nat;
    assert n / 256 == b[0] as nat && n % 256 == b[1] as nat;
    assert (n / 256) as byte == b[0] && (n % 256) as byte == b[1];
    assert b == [b[0], b[1]];
  }

  /** UDP `get_data` (dumbdns.py:175-176): the datagram, stripped; it never raises. */
  function UdpGetData(datagram: Bytes): (r: Bytes)
    ensures |r| <= |datagram| && NoEdgeSpace(r)
  {
    StripNoEdge(datagram);
    Strip(datagram)
  }

  /**
   * As written, a datagram whose first byte is whitespace (a transaction id whose high
   * byte is 0x09-0x0d or 0x20) loses that byte to `strip`.
   */
  lemma UdpLeadingIdByteStripped(datagram: Bytes)
    requires |datagram| > 0 && IsSpace(datagram[0])
    ensures UdpGetData(datagram) == UdpGetData(datagram[1..])
    ensures |UdpGetData(datagram)| < |datagram|
  {
  }

  /** TCP `get_data` (dumbdns.py:160-167) on the bytes one `recv` returned. */
  function TcpGetData(received: Bytes): (r: Result<Bytes, FrameError>)
    ensures r.Ok? ==> |r.value| + 2 <= |received| && 2 <= |Strip(received)| && r.value == Strip(received)[2..]
  {
    var data := Strip(received);
    var declared := UnpackU16(data[..if |data| < 2 then |data| else 2]);
    if declared.Err? then Err(declared.error)
    else if declared.value < |data| - 2 then Err(WrongSize)
    else if declared.value > |data| - 2 then Err(TooBig)
    else Ok(data[2..])
  }

  /** TCP `send_data` (dumbdns.py:169-171): the bytes handed to `sendall`. */
  function TcpSendData(message: Bytes): (r: Result<Bytes, FrameError>)
    ensures r.Ok? <==> |message| <= 65535
    ensures r.Ok? ==> |r.value| == |message| + 2 && r.value[2..] == message
  {
    var sz := PackU16(|message|);
    if sz.Err? then Err(sz.error) else Ok(sz.value + message)
  }

  /** What TCP `get_data` accepts, and each way it raises. */
  lemma TcpGetDataCases(received: Bytes)
    ensures var d := Strip(received);
      && (|d| < 2 <==> TcpGetData(received) == Err(StructError))
      && (|d| >= 2 ==> var sz := d[0] as nat * 256 + d[1] as nat;
            && (sz < |d| - 2 <==> TcpGetData(received) == Err(WrongSize))
            && (sz > |d| - 2 <==> TcpGetData(received) == Err(TooBig))
            && (sz == |d| - 2 <==> TcpGetData(received) == Ok(d[2..])))
  {
  }

  /** A message is framed exactly when its length fits in 16 bits; the frame is that length, big-endian, then the message. */
  lemma TcpSendDataShape(message: Bytes)
    ensures TcpSendData(message).Ok? <==> |message| <= 65535
    ensures TcpSendData(message).Ok? ==>
      var f := TcpSendData(message).value;
      |f| == |message| + 2 && f[0] as nat * 256 + f[1] as nat == |message| && f[2..] == message
  {
    if |message| <= 65535 {
      UnpackPackU16(|message|);
    }
  }

  /** Round trip: a frame without whitespace at its ends decodes to the message it carries. */
  lemma TcpRoundTrip(message: Bytes)
    requires |message| <= 65535
    requires NoEdgeSpace(TcpSendData(message).value)
    ensures TcpGetData(TcpSendData(message).value) == Ok(message)
  {
    var f := TcpSendData(message).value;
    StripNoEdgeSpace(f);
    TcpSendDataShape(message);
  }

  /** Whatever TCP `get_data` accepts is the framing of what it returns, once stripped. */
  lemma TcpGetDataInverse(received: Bytes)
    requires TcpGetData(received).Ok?
    ensures TcpSendData(TcpGetData(received).value) == Ok(Strip(received))
  {
    var d := Strip(received);
    PackUnpackU16(d[..2]);
    assert d[..2] + d[2..] == d;
  }

  /** One `recv(8192)` can carry at most 8190 bytes of accepted message. */
  lemma TcpGetDataBound(received: Bytes)
    requires |received| <= RecvSize
    requires TcpGetData(received).Ok?
    ensures |TcpGetData(received).value| <= RecvSize - 2
  {
  }

  /**
   * As written, `strip` can eat a byte of the frame: a message shorter than 2304 bytes
   * (so that the length's high byte is below 9) whose last byte is whitespace is refused.
   */
  lemma TcpTrailingSpaceRefused(message: Bytes)
    requires 0 < |message| < 2304
    requires IsSpace(message[|message| - 1])
    ensures TcpGetData(TcpSendData(message).value).Err?
  {
    var f := TcpSendData(message).value;
    TcpSendDataShape(message);
    assert !IsSpace(f[0]);
    var l := StripLeft(f);
    assert l == f;
    var d := StripRight(l);
    assert IsSpace(f[|f| - 1]);
    assert |d| < |f|;
    if |d| >= 2 {
      assert d[..2] == f[..2];
    }
  }

  /**
   * As written, no message of 2304 bytes comes back intact: the high byte of its length
   * is 9, which `strip` removes.
   */
  lemma TcpLengthPrefixStripped(message: Bytes)
    requires |message| == 2304
    ensures TcpSendData(message).Ok? && TcpGetData(TcpSendData(message).value) != Ok(message)
  {
    var f := TcpSendData(message).value;
    TcpSendDataShape(message);
    assert f[0] == 9;
    assert StripLeft(f) == StripLeft(f[1..]);
    assert |Strip(f)| <= |f| - 1;
  }

  /** As written, 2304 zero bytes are refused outright: after `strip` the declared length is 0. */
  lemma TcpZeroMessageRefused()
    ensures var message := seq(2304, _ => 0 as byte);
      TcpSendData(message).Ok? && TcpGetData(TcpSendData(message).value).Err?
  {
    var message := seq(2304, _ => 0 as byte);
    var f := TcpSendData(message).value;
    TcpSendDataShape(message);
    assert f[0] == 9 && f[1] == 0;
    assert StripLeft(f[1..]) == f[1..];
    assert StripLeft(f) == f[1..];
    assert f[|f| - 1] == 0;
    var d := Strip(f);
    assert d == f[1..];
    assert d[..2] == [0, 0];
  }

  /** TCP `get_data` as evidently intended: the length check on the received bytes, without `strip`. */
  function TcpGetDataUnstripped(received: Bytes): (r: Result<Bytes, FrameError>)
    ensures r.Ok? <==> |received| >= 2 && received[0] as nat * 256 + received[1] as nat == |received| - 2
    ensures r.Ok? ==> r.value == received[2..]
  {
    var declared := UnpackU16(received[..if |received| < 2 then |received| else 2]);
    if declared.Err? then Err(declared.error)
    else if declared.value < |received| - 2 then Err(WrongSize)
    else if declared.value > |received| - 2 then Err(TooBig)
    else Ok(received[2..])
  }

  /** Without `strip`, every framed message decodes to itself. */
  lemma TcpRoundTripUnstripped(message: Bytes)
    requires |message| <= 65535
    ensures TcpGetDataUnstripped(TcpSendData(message).value) == Ok(message)
  {
    TcpSendDataShape(message);
  }

  /** Without `strip`, what is accepted is exactly the framing of what is returned. */
  lemma TcpUnstrippedInverse(received: Bytes)
    requires TcpGetDataUnstripped(received).Ok?
    ensures TcpSendData(TcpGetDataUnstripped(received).value) == Ok(received)
  {
    PackUnpackU16(received[..2]);
    assert received[..2] + received[2..] == received;
  }
}
