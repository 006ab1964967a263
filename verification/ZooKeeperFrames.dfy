/** The frames of the ZooKeeper client (agents/drivers/hive-go/zookeeper_protocol.go): written over partial writes, read
    back by a deadline. */
module ZooKeeperFrames {
  import opened BigEndian
  import opened Common
  import opened ZooKeeperCodec

  // ---- frames ----

  datatype FrameError = Truncated | TooLarge(length: int)

  function Frame(payload: Bytes): Bytes {
    Put(|payload|, 4) + payload
  }

  /** readFrame on the bytes that arrive; a short stream is used up. */
  function ReadFrame(stream: Bytes): (Result<Bytes, FrameError>, Bytes) {
    if |stream| < 4 then (Err(Truncated), [])
    else
      var length := Get(stream[..4]);
      var rest := stream[4..];
      if length > MAX_FRAME_SIZE then (Err(TooLarge(length)), rest)
      else if |rest| < length then (Err(Truncated), [])
      else (Ok(rest[..length]), rest[length..])
  }

  /** A frame is read back exactly, and only it. */
  lemma FrameRoundTrip(payload: Bytes, after: Bytes)
    requires |payload| <= MAX_FRAME_SIZE
    ensures ReadFrame(Frame(payload) + after) == (Ok(payload), after)
  {
    var stream := Frame(payload) + after;
    Widths();
    GetPut(|payload|, 4);
    assert stream[..4] == Put(|payload|, 4);
    assert stream[4..] == payload + after;
    assert (payload + after)[..|payload|] == payload && (payload + after)[|payload|..] == after;
  }

  function ReadFrames(stream: Bytes, count: nat): (Result<seq<Bytes>, FrameError>, Bytes) {
    if count == 0 then (Ok([]), stream)
    else
      var (head, rest) := ReadFrame(stream);
      if head.Err? then (Err(head.error), rest)
      else
        var (tail, last) := ReadFrames(rest, count - 1);
        (if tail.Err? then tail else Ok([head.value] + tail.value), last)
  }

  function Frames(payloads: seq<Bytes>): Bytes {
    if payloads == [] then [] else Frame(payloads[0]) + Frames(payloads[1..])
  }

  lemma FramesUnfold(payloads: seq<Bytes>, after: Bytes)
    requires payloads != []
    ensures Frames(payloads) + after == Frame(payloads[0]) + (Frames(payloads[1..]) + after)
  {
    FirstThenRest(Frame(payloads[0]), Frames(payloads[1..]), after);
  }

  lemma FirstThenRest(a: Bytes, b: Bytes, c: Bytes)
    ensures a + b + c == a + (b + c)
  {
  }

  lemma NextFrame(stream: Bytes, rest: Bytes, payloads: seq<Bytes>, last: Bytes)
    requires payloads != [] && ReadFrame(stream) == (Ok(payloads[0]), rest)
    requires ReadFrames(rest, |payloads| - 1) == (Ok(payloads[1..]), last)
    ensures ReadFrames(stream, |payloads|) == (Ok(payloads), last)
  {
    assert [payloads[0]] + payloads[1..] == payloads;
  }

  /** Frames written one after the other are read back one by one, in order. */
  lemma {:induction false} FramesRoundTrip(payloads: seq<Bytes>, after: Bytes)
    requires forall i :: 0 <= i < |payloads| ==> |payloads[i]| <= MAX_FRAME_SIZE
    ensures ReadFrames(Frames(payloads) + after, |payloads|) == (Ok(payloads), after)
    decreases |payloads|
  {
    if payloads == [] {
      assert Frames(payloads) + after == after;
    } else {
      FramesRoundTrip(payloads[1..], after);
      FirstOfFrames(payloads, after);
      NextFrame(Frames(payloads) + after, Frames(payloads[1..]) + after, payloads, after);
    }
  }

  lemma FirstOfFrames(payloads: seq<Bytes>, after: Bytes)
    requires payloads != [] && |payloads[0]| <= MAX_FRAME_SIZE
    ensures ReadFrame(Frames(payloads) + after) == (Ok(payloads[0]), Frames(payloads[1..]) + after)
  {
    FramesUnfold(payloads, after);
    FrameRoundTrip(payloads[0], Frames(payloads[1..]) + after);
  }

  /** A frame above sixteen megabytes is refused by its length alone. */
  lemma OversizedFrame(length: nat, after: Bytes)
    requires length < TWO_32
    ensures ReadFrame(Put(length, 4) + after).0 == Err(TooLarge(length)) <==> length > 16777216
    ensures length > 16777216 ==> ReadFrame(Put(length, 4) + after).1 == after
  {
    var stream := Put(length, 4) + after;
    Widths();
    GetPut(length, 4);
    assert stream[..4] == Put(length, 4) && stream[4..] == after;
  }

  /** readFrame when only the first `arrived` bytes of the stream are there by the deadline: what it took off the
      stream is gone, whether or not it made a frame. */
  function ReadBy(stream: Bytes, arrived: nat): (Result<Bytes, FrameError>, Bytes) {
    var n := if arrived < |stream| then arrived else |stream|;
    var (frame, left) := ReadFrame(stream[..n]);
    (frame, left + stream[n..])
  }

  /** A frame that arrives in time is read and only it; of one that does not, all that arrived is lost, so that the
      stream is left in the middle of it. */
  lemma FrameInTimeIff(payload: Bytes, after: Bytes, arrived: nat)
    requires |payload| <= MAX_FRAME_SIZE && arrived <= |Frame(payload) + after|
    ensures ReadBy(Frame(payload) + after, arrived) ==
            if arrived < |Frame(payload)| then (Err(Truncated), (Frame(payload) + after)[arrived..]) else (Ok(payload), after)
  {
    if arrived < |Frame(payload)| {
      FrameTooLate(payload, after, arrived);
    } else {
      var more := arrived - |Frame(payload)|;
      FrameRoundTrip(payload, after[..more]);
      assert (Frame(payload) + after)[..arrived] == Frame(payload) + after[..more];
      assert (Frame(payload) + after)[arrived..] == after[more..];
      assert after[..more] + after[more..] == after;
    }
  }

  lemma FrameTooLate(payload: Bytes, after: Bytes, arrived: nat)
    requires |payload| <= MAX_FRAME_SIZE && arrived < |Frame(payload)|
    ensures ReadBy(Frame(payload) + after, arrived) == (Err(Truncated), (Frame(payload) + after)[arrived..])
  {
    var stream := Frame(payload) + after;
    if arrived >= 4 {
      Widths();
      GetPut(|payload|, 4);
      assert stream[..arrived][..4] == Put(|payload|, 4);
    }
    assert [] + stream[arrived..] == stream[arrived..];
  }

  /** What is read in time is read as if all had been there. */
  lemma ReadInTime(stream: Bytes, arrived: nat)
    requires ReadBy(stream, arrived).0.Ok?
    ensures ReadBy(stream, arrived) == ReadFrame(stream)
  {
    var n := if arrived < |stream| then arrived else |stream|;
    var length := Get(stream[..n][..4]);
    assert stream[..n][..4] == stream[..4];
    assert stream[..n][4..][..length] == stream[4..][..length];
    assert stream[..n][4..][length..] + stream[n..] == stream[4..][length..];
  }

  lemma DeadlineAtTheEnds(stream: Bytes)
    ensures ReadBy(stream, 0) == (Err(Truncated), stream) && ReadBy(stream, |stream|) == ReadFrame(stream)
  {
    assert stream[..0] == [] && [] + stream[0..] == stream;
    var left := ReadFrame(stream).1;
    assert stream[..|stream|] == stream && left + stream[|stream|..] == left;
  }

  // ---- sending ----

  /** What one Write call does: how many bytes it takes, and whether it reports an error. */
  datatype WriteOutcome = WriteOutcome(accepted: int, failed: bool)

  function Taken(outcome: WriteOutcome, length: nat): int {
    if outcome.accepted > length then length else outcome.accepted
  }

  /** What came of writing some bytes: success, how many of them went out, and the outcomes still to come. */
  datatype Sending = Sending(ok: bool, count: nat, script: seq<WriteOutcome>)

  /** writeAll on `length` bytes, by the outcomes of its Write calls. */
  function Sends(script: seq<WriteOutcome>, length: nat): (s: Sending)
    ensures s.count <= length && (s.ok ==> s.count == length)
    decreases length
  {
    if length == 0 then Sending(true, 0, script)
    else if script == [] then Sending(false, 0, [])
    else
      var taken := Taken(script[0], length);
      if script[0].failed || taken <= 0 then Sending(false, if taken < 0 then 0 else taken, script[1..])
      else
        var rest := Sends(script[1..], length - taken);
        Sending(rest.ok, taken + rest.count, rest.script)
  }

  function Volume(script: seq<WriteOutcome>): int {
    if script == [] then 0 else script[0].accepted + Volume(script[1..])
  }

  /** The first `n` writes each take something without an error, and together as much as `length`. */
  predicate Covers(script: seq<WriteOutcome>, n: nat, length: nat) {
    && n <= |script| && Volume(script[..n]) >= length
    && forall i :: 0 <= i < n ==> !script[i].failed && script[i].accepted > 0
  }

  lemma CoversFirst(script: seq<WriteOutcome>, n: nat, length: nat)
    requires script != [] && n >= 1
    ensures Covers(script, n, length) <==>
            && n <= |script| && !script[0].failed && script[0].accepted > 0
            && Covers(script[1..], n - 1, if script[0].accepted > length then 0 else length - script[0].accepted)
  {
    if n <= |script| {
      assert script[..n][0] == script[0] && script[..n][1..] == script[1..][..n - 1];
      Positive(script[1..], n - 1);
      assert (forall i :: 0 <= i < n ==> !script[i].failed && script[i].accepted > 0) ==>
             forall i :: 0 <= i < n - 1 ==> !script[1..][i].failed && script[1..][i].accepted > 0;
      assert forall i :: 1 <= i < n ==> script[i] == script[1..][i - 1];
    }
  }

  lemma {:induction false} Positive(script: seq<WriteOutcome>, n: nat)
    requires n <= |script|
    ensures (forall i :: 0 <= i < n ==> script[i].accepted > 0) ==> Volume(script[..n]) >= 0
    decreases n
  {
    if n > 0 {
      Positive(script[1..], n - 1);
      assert script[..n][1..] == script[1..][..n - 1];
      assert (forall i :: 0 <= i < n ==> script[i].accepted > 0) ==>
             forall i :: 0 <= i < n - 1 ==> script[1..][i].accepted > 0;
    }
  }

  /** writeAll succeeds exactly when writes that take something, without an error, cover all the bytes. */
  lemma {:induction false} SendsIff(script: seq<WriteOutcome>, length: nat)
    ensures Sends(script, length).ok <==> exists n :: Covers(script, n, length)
    decreases length
  {
    if length == 0 {
      assert Covers(script, 0, 0);
    } else if script != [] {
      var left := if script[0].accepted > length then 0 else length - script[0].accepted;
      if !script[0].failed && script[0].accepted > 0 {
        SendsIff(script[1..], left);
      }
      if Sends(script, length).ok {
        var n: nat :| Covers(script[1..], n, left);
        CoversFirst(script, n + 1, length);
      }
      forall n: nat | Covers(script, n, length)
        ensures Sends(script, length).ok
      {
        CoversFirst(script, n, length);
      }
    }
  }

  /** writeFrame on a payload of `length` bytes: nothing of an oversized one is sent. */
  function FrameSends(script: seq<WriteOutcome>, length: nat): (s: Sending)
    ensures s.count <= 4 + length && (s.ok ==> s.count == 4 + length)
  {
    if length > MAX_FRAME_SIZE then Sending(false, 0, script)
    else
      var header := Sends(script, 4);
      if !header.ok then header
      else
        var body := Sends(header.script, length);
        Sending(body.ok, 4 + body.count, body.script)
  }

  /** A frame goes out whole exactly when it is not above sixteen megabytes and writes that take something, without an
      error, cover first its header and then its payload. */
  lemma FrameSendsIff(script: seq<WriteOutcome>, length: nat)
    ensures FrameSends(script, length).ok <==>
      && length <= 16777216 && (exists n :: Covers(script, n, 4))
      && exists n :: Covers(Sends(script, 4).script, n, length)
  {
    SendsIff(script, 4);
    SendsIff(Sends(script, 4).script, length);
  }

  /** What is left of the outcomes is what follows the writes that were made. */
  lemma {:induction false} SendsUses(script: seq<WriteOutcome>, length: nat) returns (n: nat)
    ensures n <= |script| && Sends(script, length).script == script[n..]
    ensures Sends(script, length).ok ==> Covers(script, n, length)
    ensures forall m: nat :: m < n ==> !Covers(script, m, length)
    decreases length
  {
    n := 0;
    if length > 0 && script != [] {
      var left := if script[0].accepted > length then 0 else length - script[0].accepted;
      if !script[0].failed && script[0].accepted > 0 {
        var k := SendsUses(script[1..], left);
        n := k + 1;
        CoversFirst(script, n, length);
        forall m: nat | m < n
          ensures !Covers(script, m, length)
        {
          if m > 0 {
            CoversFirst(script, m, length);
          }
        }
      } else {
        n := 1;
      }
    }
  }

  // ---- the connection ----

  class Connection {
    var sent: Bytes
    var incoming: Bytes
    var script: seq<WriteOutcome>

    /** net.Conn.Write: any number of leading bytes may go out, with or without an error. */
    method Write(payload: Bytes) returns (written: int, failed: bool)
      modifies `sent, `script
      ensures var outcome := if old(script) == [] then WriteOutcome(0, true) else old(script)[0];
        && written == Taken(outcome, |payload|) && failed == outcome.failed
        && script == (if old(script) == [] then [] else old(script)[1..])
        && sent == old(sent) + payload[..if written < 0 then 0 else written]
    {
      var outcome := if script == [] then WriteOutcome(0, true) else script[0];
      script := if script == [] then [] else script[1..];
      written := if outcome.accepted > |payload| then |payload| else outcome.accepted;
      failed := outcome.failed;
      sent := sent + payload[..if written < 0 then 0 else written];
    }

    /** writeAll: the bytes go out in order, as many as the writes take, and it succeeds exactly when they take all
        of them without an error. */
    method WriteAll(payload: Bytes) returns (ok: bool)
      modifies `sent, `script
      ensures var sending := Sends(old(script), |payload|);
        ok == sending.ok && sent == old(sent) + payload[..sending.count] && script == sending.script
    {
      var left := payload;
      ghost var all := Sends(script, |payload|);
      while |left| > 0
        invariant |left| <= |payload| && left == payload[|payload| - |left|..]
        invariant sent == old(sent) + payload[..|payload| - |left|]
        invariant all == Onward(|payload| - |left|, Sends(script, |left|))
        decreases |left|
      {
        ghost var done := |payload| - |left|;
        var written, failed := Write(left);
        assert payload[..done] + left[..if written < 0 then 0 else written]
            == payload[..done + if written < 0 then 0 else written];
        if failed {
          return false;
        }
        if written <= 0 {
          return false;
        }
        left := left[written..];
      }
      ok := true;
    }

    /** writeFrame: an oversized payload is refused before anything is sent. */
    method WriteFrame(payload: Bytes) returns (ok: bool)
      modifies `sent, `script
      ensures var sending := FrameSends(old(script), |payload|);
        ok == sending.ok && sent == old(sent) + Frame(payload)[..sending.count] && script == sending.script
      ensures |payload| > 16777216 ==> !ok && sent == old(sent) && script == old(script)
    {
      if |payload| > MAX_FRAME_SIZE {
        return false;
      }
      ghost var header := Sends(script, 4);
      ok := WriteAll(Put(|payload|, 4));
      assert Put(|payload|, 4)[..header.count] == Frame(payload)[..header.count];
      if ok {
        ghost var body := Sends(script, |payload|);
        ok := WriteAll(payload);
        assert Put(|payload|, 4) + payload[..body.count] == Frame(payload)[..4 + body.count];
      }
    }

    /** readFrame, when the first `arrived` bytes of the stream are there by the deadline. */
    method ReceiveFrame(arrived: nat) returns (frame: Result<Bytes, FrameError>)
      modifies `incoming
      ensures (frame, incoming) == ReadBy(old(incoming), arrived)
    {
      var n := if arrived < |incoming| then arrived else |incoming|;
      var ready, later := incoming[..n], incoming[n..];
      assert [] + later == later;
      if n < 4 {
        incoming := later;
        return Err(Truncated);
      }
      var length := Get(ready[..4]);
      assert ready[4..] + later == incoming[4..];
      if length > MAX_FRAME_SIZE {
        incoming := incoming[4..];
        return Err(TooLarge(length));
      }
      if n - 4 < length {
        incoming := later;
        return Err(Truncated);
      }
      assert ready[4..][length..] + later == incoming[4 + length..];
      assert ready[4..][..length] == ready[4..4 + length];
      incoming := incoming[4 + length..];
      return Ok(ready[4..4 + length]);
    }
  }

  function Onward(done: nat, rest: Sending): Sending {
    Sending(rest.ok, done + rest.count, rest.script)
  }
}
