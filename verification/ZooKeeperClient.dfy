/** The ZooKeeper client (agents/drivers/hive-go/zookeeper_protocol.go): one request with its reply. */
module ZooKeeperClient {
  import opened BigEndian
  import opened Common
  import opened ZooKeeperCodec
  import opened ZooKeeperFrames
  import opened ZooKeeperRoundTrip

  // ---- one reply ----

  datatype ReplyError = Malformed(cause: DecodeError) | XidMismatch(got: int, want: int) | ServerError(code: int)

  function ReplyFrame(xid: int, zxid: int, code: int, body: Bytes): Bytes {
    EncInt32(xid) + EncInt64(zxid) + EncInt32(code) + body
  }

  /** What request does with a reply: XID, zxid, error code, and the rest is the body. */
  function ParseReply(payload: Bytes, xid: int): Result<Bytes, ReplyError> {
    var (got, o1) := ReadInt32(payload, 0);
    if got.Err? then Err(Malformed(got.error))
    else if got.value != xid then Err(XidMismatch(got.value, xid))
    else
      var (zxid, o2) := ReadInt64(payload, o1);
      if zxid.Err? then Err(Malformed(zxid.error))
      else
        var (code, o3) := ReadInt32(payload, o2);
        if code.Err? then Err(Malformed(code.error))
        else if code.value != 0 then Err(ServerError(code.value))
        else Ok(payload[o3..])
  }

  /** A reply is accepted exactly when it carries the XID and no error, and yields its body. */
  lemma ParseReplyFrame(xid: int, zxid: int, code: int, body: Bytes, want: int)
    requires -TWO_31 <= xid < TWO_31 && -TWO_63 <= zxid < TWO_63 && -TWO_31 <= code < TWO_31
    ensures ParseReply(ReplyFrame(xid, zxid, code, body), want) ==
            if xid != want then Err(XidMismatch(xid, want)) else if code != 0 then Err(ServerError(code)) else Ok(body)
  {
    var payload := ReplyFrame(xid, zxid, code, body);
    var (x, z, c) := (EncInt32(xid), EncInt64(zxid), EncInt32(code));
    assert payload == x + (z + (c + body));
    assert At(payload, 0, x + (z + (c + body)));
    AtSplit(payload, 0, x, z + (c + body));
    AtSplit(payload, 4, z, c + body);
    AtSplit(payload, 12, c, body);
    Int32RoundTrip(payload, 0, xid);
    Int64RoundTrip(payload, 4, zxid);
    Int32RoundTrip(payload, 12, code);
  }

  // ---- one request ----

  datatype RequestError = ClientClosed | WriteFailed | NoFrame | Refused(error: ReplyError)

  /** A client and its connection at one moment. */
  datatype Link = Link(closed: bool, xid: int, sent: Bytes, incoming: Bytes, script: seq<WriteOutcome>)

  function RequestPayload(xid: int, opcode: int, body: Bytes): Bytes {
    EncInt32(xid) + EncInt32(opcode) + body
  }

  /** What a request whose frame went out gets from the stream, and the stream behind it. */
  function ReplyFrom(stream: Bytes, xid: int, arrived: nat): (Result<Bytes, RequestError>, Bytes) {
    var (frame, rest) := ReadBy(stream, arrived);
    if frame.Err? then (Err(NoFrame), rest)
    else
      var parsed := ParseReply(frame.value, xid);
      (if parsed.Ok? then Ok(parsed.value) else Err(Refused(parsed.error)), rest)
  }

  /** What a request comes back with, and the link behind it. */
  function Requested(link: Link, opcode: int, body: Bytes, arrived: nat): (Result<Bytes, RequestError>, Link) {
    if link.closed then (Err(ClientClosed), link)
    else
      var xid := Wrap32(link.xid + 1);
      var sending := FrameSends(link.script, 8 + |body|);
      var sent := link.sent + Frame(RequestPayload(xid, opcode, body))[..sending.count];
      if !sending.ok then (Err(WriteFailed), Link(false, xid, sent, link.incoming, sending.script))
      else
        var (reply, rest) := ReplyFrom(link.incoming, xid, arrived);
        (reply, Link(false, xid, sent, rest, sending.script))
  }

  /** A request of an open client succeeds exactly when every write of its frame is taken without an error and the
      next frame arrives in time and is a reply without an error under the new XID; its frame then went out whole. */
  lemma SucceedsIff(link: Link, opcode: int, body: Bytes, arrived: nat)
    requires !link.closed
    ensures var (reply, after) := Requested(link, opcode, body, arrived);
            var frame := ReadBy(link.incoming, arrived).0;
            && (reply.Ok? <==> FrameSends(link.script, 8 + |body|).ok && frame.Ok? && ParseReply(frame.value, after.xid).Ok?)
            && (reply.Ok? ==> after.sent == link.sent + Frame(RequestPayload(after.xid, opcode, body)))
            && (reply.Ok? ==> Ok(reply.value) == ParseReply(frame.value, after.xid))
  {
    var frame := Frame(RequestPayload(Wrap32(link.xid + 1), opcode, body));
    assert frame[..12 + |body|] == frame;
  }

  /** Every failure is told apart: a closed client, a write that fails, a frame that does not arrive whole in time or is
      too large, and a reply that is refused; a closed client changes nothing. */
  lemma FailsIff(link: Link, opcode: int, body: Bytes, arrived: nat, error: ReplyError)
    ensures var (reply, after) := Requested(link, opcode, body, arrived);
            var frame := ReadBy(link.incoming, arrived).0;
            var sends := FrameSends(link.script, 8 + |body|).ok;
            && (reply == Err(ClientClosed) <==> link.closed) && (link.closed ==> after == link)
            && (!link.closed ==> after.xid == Wrap32(link.xid + 1))
            && (reply == Err(WriteFailed) <==> !link.closed && !sends)
            && (reply == Err(NoFrame) <==> !link.closed && sends && frame.Err?)
            && (reply == Err(Refused(error)) <==>
                !link.closed && sends && frame.Ok? && ParseReply(frame.value, after.xid) == Err(error))
            && (link.closed || !sends ==> after.incoming == link.incoming)
            && (!link.closed && sends ==> after.incoming == ReadBy(link.incoming, arrived).1)
  {
  }

  /** What the server reads from a request: its XID, its opcode and its body. */
  lemma RequestRead(xid: int, opcode: int, body: Bytes)
    requires -TWO_31 <= xid < TWO_31 && -TWO_31 <= opcode < TWO_31
    ensures var payload := RequestPayload(xid, opcode, body);
      ReadInt32(payload, 0) == (Ok(xid), 4) && ReadInt32(payload, 4) == (Ok(opcode), 8) && payload[8..] == body
  {
    var payload, a, b := RequestPayload(xid, opcode, body), EncInt32(xid), EncInt32(opcode);
    assert payload == a + (b + body);
    assert At(payload, 0, a + (b + body));
    AtSplit(payload, 0, a, b + body);
    AtSplit(payload, 4, b, body);
    Int32RoundTrip(payload, 0, xid);
    Int32RoundTrip(payload, 4, opcode);
  }

  class Client {
    const connection: Connection
    var xid: int
    var closed: bool

    constructor (connection: Connection)
      ensures this.connection == connection && xid == 0 && !closed
    {
      this.connection := connection;
      xid, closed := 0, false;
    }

    ghost function View(): Link
      reads this, connection
    {
      Link(closed, xid, connection.sent, connection.incoming, connection.script)
    }

    /** request, under the client mutex; `arrived` bytes of the stream are there by its deadline. */
    method Request(opcode: int, body: Bytes, arrived: nat) returns (reply: Result<Bytes, RequestError>)
      modifies this, connection
      ensures (reply, View()) == Requested(old(View()), opcode, body, arrived)
    {
      if closed {
        return Err(ClientClosed);
      }
      xid := Wrap32(xid + 1);
      var encoder := new Encoder();
      encoder.Int32(xid);
      encoder.Int32(opcode);
      assert encoder.buffer + body == RequestPayload(xid, opcode, body);
      var ok := connection.WriteFrame(encoder.buffer + body);
      if !ok {
        return Err(WriteFailed);
      }
      var frame := connection.ReceiveFrame(arrived);
      if frame.Err? {
        return Err(NoFrame);
      }
      var checked := CheckReply(frame.value, xid);
      reply := if checked.Ok? then Ok(checked.value) else Err(Refused(checked.error));
    }
  }

  /** The second half of request: the checks on a reply frame. */
  method CheckReply(frame: Bytes, xid: int) returns (r: Result<Bytes, ReplyError>)
    ensures r == ParseReply(frame, xid)
  {
    var decoder := new Decoder(frame);
    var got := decoder.Int32();
    if got.Err? {
      return Err(Malformed(got.error));
    }
    if got.value != xid {
      return Err(XidMismatch(got.value, xid));
    }
    var zxid := decoder.Int64();
    if zxid.Err? {
      return Err(Malformed(zxid.error));
    }
    var code := decoder.Int32();
    if code.Err? {
      return Err(Malformed(code.error));
    }
    if code.value != 0 {
      return Err(ServerError(code.value));
    }
    var rest := decoder.Remaining();
    return Ok(rest);
  }
}
