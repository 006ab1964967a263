/** The request/reply protocol of the ZooKeeper client over a run of requests
    (agents/drivers/hive-go/zookeeper_protocol.go).  Requests are serialized by the client
    mutex; the connection keeps frames whole and in order, but may delay them past the
    client's deadline, so that a later request finds an earlier reply. */
module ZooKeeperXid {
  import opened Common
  import opened BigEndian
  import opened ZooKeeperCodec
  import opened ZooKeeperClient
  import opened ZooKeeperFrames

  /** The server's answer to one request; it echoes that request's XID. */
  datatype Reply = Reply(request: nat, zxid: int, code: int, body: Bytes)

  function WireFrame(r: Reply): Bytes {
    ReplyFrame(Wrap32(r.request), r.zxid, r.code, r.body)
  }

  datatype Net = Net(
    issued: nat,                  // requests so far; the next one is number issued + 1
    xid: int,                     // the client's int32 counter
    waiting: bool,                // the last request still reads
    received: seq<nat>,           // at the server, not yet answered
    replies: seq<Reply>,          // on the way to the client
    answered: map<nat, Bytes>,    // the body of the reply to each answered request
    results: map<nat, Bytes>)     // what each successful request returned

  const QUIET := Net(0, 0, false, [], [], map[], map[])

  datatype Event =
    | Send(delivered: bool, failed: bool)           // request: the write, which may fail
    | Answer(zxid: int, code: int, body: Bytes)     // the server answers its oldest request
    | Ignore                                        // the server drops its oldest request
    | Receive                                       // the client reads the next frame
    | Timeout                                       // the client's deadline passes first

  predicate Possible(s: Net, ev: Event) {
    match ev
    case Send(delivered, failed) => !s.waiting && (delivered || failed)
    case Answer(zxid, code, body) =>
      s.received != [] && -TWO_63 <= zxid < TWO_63 && -TWO_31 <= code < TWO_31 && 16 + |body| <= MAX_FRAME_SIZE
    case Ignore => s.received != []
    case Receive => s.waiting && s.replies != []
    case Timeout => s.waiting
  }

  function Step(s: Net, ev: Event): Net
    requires Possible(s, ev)
  {
    match ev
    case Send(delivered, failed) =>
      s.(issued := s.issued + 1, xid := Wrap32(s.xid + 1), waiting := !failed,
         received := if delivered then s.received + [s.issued + 1] else s.received)
    case Answer(zxid, code, body) =>
      s.(received := s.received[1..], replies := s.replies + [Reply(s.received[0], zxid, code, body)],
         answered := s.answered[s.received[0] := body])
    case Ignore => s.(received := s.received[1..])
    case Receive =>
      var parsed := ParseReply(WireFrame(s.replies[0]), s.xid);
      s.(waiting := false, replies := s.replies[1..],
         results := if parsed.Ok? then s.results[s.issued := parsed.value] else s.results)
    case Timeout => s.(waiting := false)
  }

  ghost predicate Feasible(s: Net, evs: seq<Event>)
    decreases |evs|
  {
    evs == [] || (Possible(s, evs[0]) && Feasible(Step(s, evs[0]), evs[1..]))
  }

  ghost function Play(s: Net, evs: seq<Event>): Net
    requires Feasible(s, evs)
    decreases |evs|
  {
    if evs == [] then s else Play(Step(s, evs[0]), evs[1..])
  }

  // ---- safety up to 2^32 requests ----

  /** XIDs tell apart any two of the first 2^32 requests. */
  lemma XidsAreDistinct(i: nat, j: nat)
    requires 1 <= i <= TWO_32 && 1 <= j <= TWO_32 && Wrap32(i) == Wrap32(j)
    ensures i == j
  {
    assert i % TWO_32 == j % TWO_32;
  }

  lemma WrapNext(n: nat)
    ensures Wrap32(Wrap32(n) + 1) == Wrap32(n + 1)
  {
  }

  ghost predicate Consistent(s: Net) {
    && s.xid == Wrap32(s.issued)
    && (forall i :: 0 <= i < |s.received| ==> 1 <= s.received[i] <= s.issued && s.received[i] !in s.answered)
    && (forall i, j :: 0 <= i < j < |s.received| ==> s.received[i] < s.received[j])
    && (forall i :: 0 <= i < |s.replies| ==>
          && 1 <= s.replies[i].request <= s.issued
          && -TWO_63 <= s.replies[i].zxid < TWO_63 && -TWO_31 <= s.replies[i].code < TWO_31
          && s.replies[i].request in s.answered && s.answered[s.replies[i].request] == s.replies[i].body)
    && (forall n :: n in s.answered ==> n <= s.issued)
    && (forall n :: n in s.results ==> n in s.answered && s.results[n] == s.answered[n])
  }

  lemma ReceiveKeeps(s: Net)
    requires Consistent(s) && Possible(s, Receive) && s.issued <= TWO_32
    ensures Consistent(Step(s, Receive))
  {
    var r := s.replies[0];
    ParseReplyFrame(Wrap32(r.request), r.zxid, r.code, r.body, s.xid);
    if Wrap32(r.request) == s.xid {
      XidsAreDistinct(r.request, s.issued);
    }
  }

  lemma SendKeeps(s: Net, delivered: bool, failed: bool)
    requires Consistent(s) && Possible(s, Send(delivered, failed))
    ensures Consistent(Step(s, Send(delivered, failed)))
  {
    WrapNext(s.issued);
  }

  lemma AnswerKeeps(s: Net, zxid: int, code: int, body: Bytes)
    requires Consistent(s) && Possible(s, Answer(zxid, code, body))
    ensures Consistent(Step(s, Answer(zxid, code, body)))
  {
  }

  lemma StepKeeps(s: Net, ev: Event)
    requires Consistent(s) && Possible(s, ev) && Step(s, ev).issued <= TWO_32
    ensures Consistent(Step(s, ev))
  {
    match ev
    case Send(delivered, failed) => SendKeeps(s, delivered, failed);
    case Answer(zxid, code, body) => AnswerKeeps(s, zxid, code, body);
    case Receive => ReceiveKeeps(s);
    case _ =>
  }

  lemma {:induction false} IssuedGrows(s: Net, evs: seq<Event>)
    requires Feasible(s, evs)
    ensures s.issued <= Play(s, evs).issued
    decreases |evs|
  {
    if evs != [] {
      IssuedGrows(Step(s, evs[0]), evs[1..]);
    }
  }

  lemma {:induction false} PlayKeeps(s: Net, evs: seq<Event>)
    requires Consistent(s) && Feasible(s, evs) && Play(s, evs).issued <= TWO_32
    ensures Consistent(Play(s, evs))
    decreases |evs|
  {
    if evs != [] {
      IssuedGrows(Step(s, evs[0]), evs[1..]);
      StepKeeps(s, evs[0]);
      PlayKeeps(Step(s, evs[0]), evs[1..]);
    }
  }

  /** In any run of at most 2^32 requests, a request that succeeds returns the body of the
      server's reply to that same request, however replies were delayed. */
  lemma RepliesMatchRequests(evs: seq<Event>, n: nat)
    requires Feasible(QUIET, evs) && Play(QUIET, evs).issued <= TWO_32 && n in Play(QUIET, evs).results
    ensures n in Play(QUIET, evs).answered && Play(QUIET, evs).results[n] == Play(QUIET, evs).answered[n]
  {
    PlayKeeps(QUIET, evs);
  }

  // ---- the client object takes these steps ----

  function Wires(replies: seq<Reply>): seq<Bytes> {
    seq(|replies|, i requires 0 <= i < |replies| => WireFrame(replies[i]))
  }

  /** What the connection will yield while these replies are on the way. */
  function Stream(replies: seq<Reply>): Bytes {
    Frames(Wires(replies))
  }

  lemma StreamHead(replies: seq<Reply>)
    requires replies != [] && 16 + |replies[0].body| <= MAX_FRAME_SIZE
    ensures ReadFrame(Stream(replies)) == (Ok(WireFrame(replies[0])), Stream(replies[1..]))
  {
    var head, tail := WireFrame(replies[0]), Wires(replies[1..]);
    assert Wires(replies)[1..] == tail;
    assert |head| == 16 + |replies[0].body|;
    FrameRoundTrip(head, Frames(tail));
  }

  /** The client stands where the machine stands. */
  ghost predicate Mirrors(client: Client, s: Net)
    reads client, client.connection
  {
    client.xid == s.xid && client.connection.incoming == Stream(s.replies)
  }

  function Reading(s: Net, timeout: bool): Event {
    if timeout || s.replies == [] then Timeout else Receive
  }

  lemma ReplyAtHead(replies: seq<Reply>, xid: int)
    requires replies != [] && 16 + |replies[0].body| <= MAX_FRAME_SIZE
    ensures var parsed := ParseReply(WireFrame(replies[0]), xid);
      ReplyFrom(Stream(replies), xid, |Stream(replies)|) ==
      (if parsed.Ok? then Ok(parsed.value) else Err(Refused(parsed.error)), Stream(replies[1..]))
  {
    DeadlineAtTheEnds(Stream(replies));
    StreamHead(replies);
  }

  lemma NoReply(stream: Bytes, xid: int)
    ensures ReplyFrom(stream, xid, 0) == (Err(NoFrame), stream)
  {
    DeadlineAtTheEnds(stream);
  }

  /** Step by step, reading the stream is what the machine does with its oldest reply. */
  lemma ReplyFromIsStep(s: Net, timeout: bool)
    requires s.waiting && (s.replies != [] ==> 16 + |s.replies[0].body| <= MAX_FRAME_SIZE)
    ensures var stream := Stream(s.replies);
      var (reply, rest) := ReplyFrom(stream, s.xid, if timeout then 0 else |stream|);
      var s' := Step(s, Reading(s, timeout));
      && rest == Stream(s'.replies)
      && s'.results == if reply.Ok? then s.results[s.issued := reply.value] else s.results
  {
    if timeout || s.replies == [] {
      assert s.replies == [] ==> |Stream(s.replies)| == 0;
      NoReply(Stream(s.replies), s.xid);
    } else {
      ReplyAtHead(s.replies, s.xid);
    }
  }

  /** A request of the client object whose frame goes out is one Receive or Timeout step of the machine, with the same
      result; `s` is the machine after the Send step and whatever the server answered since, and the deadline passes
      before the replies or after them. */
  method RequestIsStep(client: Client, opcode: int, body: Bytes, timeout: bool, ghost s: Net)
    returns (reply: Result<Bytes, RequestError>, ghost s': Net)
    requires !client.closed && s.waiting && s.xid == Wrap32(client.xid + 1)
    requires client.connection.incoming == Stream(s.replies)
    requires s.replies != [] ==> 16 + |s.replies[0].body| <= MAX_FRAME_SIZE
    modifies client, client.connection
    ensures reply == Err(WriteFailed) <==> !FrameSends(old(client.connection.script), 8 + |body|).ok
    ensures reply != Err(WriteFailed) ==>
      && s' == Step(s, Reading(s, timeout)) && Mirrors(client, s')
      && s'.results == if reply.Ok? then s.results[s.issued := reply.value] else s.results
  {
    s' := Step(s, Reading(s, timeout));
    ReplyFromIsStep(s, timeout);
    reply := client.Request(opcode, body, if timeout then 0 else |client.connection.incoming|);
  }

  // ---- and not one request more ----

  function Repeat(ev: Event, n: nat): seq<Event> {
    if n == 0 then [] else [ev] + Repeat(ev, n - 1)
  }

  /** Requests whose write fails only advance the counter. */
  lemma {:induction false} FailMany(s: Net, n: nat)
    requires !s.waiting && s.xid == Wrap32(s.issued)
    ensures Feasible(s, Repeat(Send(false, true), n))
    ensures Play(s, Repeat(Send(false, true), n)) == s.(issued := s.issued + n, xid := Wrap32(s.issued + n))
    decreases n
  {
    if n > 0 {
      var ev := Send(false, true);
      WrapNext(s.issued);
      FailMany(Step(s, ev), n - 1);
      assert Repeat(ev, n)[1..] == Repeat(ev, n - 1);
    }
  }

  lemma {:induction false} PlayConcat(s: Net, a: seq<Event>, b: seq<Event>)
    requires Feasible(s, a) && Feasible(Play(s, a), b)
    ensures Feasible(s, a + b) && Play(s, a + b) == Play(Play(s, a), b)
    decreases |a|
  {
    if a == [] {
      assert a + b == b;
    } else {
      PlayConcat(Step(s, a[0]), a[1..], b);
      assert (a + b)[1..] == a[1..] + b;
    }
  }

  /** The bound is exact: with one request more, the late reply to the first request can pass for
      the reply to the last, whose XID is the same. */
  lemma OneMoreRequestMayMismatch(body: Bytes, other: Bytes) returns (evs: seq<Event>)
    requires body != other && |body| <= 1024 && |other| <= 1024
    ensures Feasible(QUIET, evs)
    ensures var s := Play(QUIET, evs);
            s.issued == TWO_32 + 1 && s.issued in s.results && s.issued in s.answered && s.results[s.issued] != s.answered[s.issued]
  {
    var first := [Send(true, false), Answer(0, 0, body), Timeout];
    var s1 := Net(1, 1, false, [], [Reply(1, 0, 0, body)], map[1 := body], map[]);
    FirstLeg(body);
    var middle := Repeat(Send(false, true), TWO_32 - 1);
    FailMany(s1, TWO_32 - 1);
    PlayConcat(QUIET, first, middle);
    var s2 := s1.(issued := TWO_32, xid := Wrap32(TWO_32));
    var last := [Send(true, false), Answer(0, 0, other), Receive];
    LastLeg(s2, body, other);
    PlayConcat(QUIET, first + middle, last);
    evs := first + middle + last;
  }

  lemma FirstLeg(body: Bytes)
    requires |body| <= 1024
    ensures var evs := [Send(true, false), Answer(0, 0, body), Timeout];
            Feasible(QUIET, evs) && Play(QUIET, evs) == Net(1, 1, false, [], [Reply(1, 0, 0, body)], map[1 := body], map[])
  {
    var evs := [Send(true, false), Answer(0, 0, body), Timeout];
    var a := Step(QUIET, evs[0]);
    var b := Step(a, evs[1]);
    var c := Step(b, evs[2]);
    assert evs[1..] == [Answer(0, 0, body), Timeout] && evs[1..][1..] == [Timeout] && evs[1..][1..][1..] == [];
    assert Feasible(c, []) && Play(c, []) == c;
    assert Feasible(b, [Timeout]) && Play(b, [Timeout]) == c;
    assert Feasible(a, evs[1..]) && Play(a, evs[1..]) == c;
  }

  lemma LastLeg(s: Net, body: Bytes, other: Bytes)
    requires |other| <= 1024
    requires s == Net(TWO_32, Wrap32(TWO_32), false, [], [Reply(1, 0, 0, body)], map[1 := body], map[])
    ensures var evs := [Send(true, false), Answer(0, 0, other), Receive];
            Feasible(s, evs) && Play(s, evs).issued == TWO_32 + 1 &&
            Play(s, evs).results == map[TWO_32 + 1 := body] && Play(s, evs).answered == map[1 := body, TWO_32 + 1 := other]
  {
    var evs := [Send(true, false), Answer(0, 0, other), Receive];
    var a := Step(s, evs[0]);
    var b := Step(a, evs[1]);
    ParseReplyFrame(Wrap32(1), 0, 0, body, a.xid);
    var c := Step(b, evs[2]);
    assert evs[1..] == [Answer(0, 0, other), Receive] && evs[1..][1..] == [Receive] && evs[1..][1..][1..] == [];
    assert Feasible(c, []) && Play(c, []) == c;
    assert Feasible(b, [Receive]) && Play(b, [Receive]) == c;
    assert Feasible(a, evs[1..]) && Play(a, evs[1..]) == c;
  }
}
