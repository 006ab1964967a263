/** The SASL negotiation of the ZooKeeper client (authenticateSASL in
    agents/drivers/hive-go/zookeeper_protocol.go): tokens out, challenges in, at most eight rounds. */
module ZooKeeperSasl {
  import opened BigEndian
  import opened Common
  import opened ZooKeeperClient
  import opened ZooKeeperCodec
  import opened ZooKeeperFrames

  const OP_SASL := 102
  const MAX_ROUNDS: nat := 8

  /** What one call of the security mechanism comes back with; a nil token is sent as an empty one. */
  datatype Turn = Turn(token: Option<Bytes>, failed: bool, complete: bool)

  function TokenBytes(token: Option<Bytes>): Bytes {
    if token.None? then [] else token.value
  }

  /** The mechanism may say anything; it is remembered what it said and what it was told. */
  class Mechanism {
    var script: seq<Turn>
    var complete: bool
    var disposed: bool
    ghost var spoken: seq<Bytes>
    ghost var heard: seq<Bytes>

    constructor (script: seq<Turn>)
      ensures this.script == script && !complete && !disposed && spoken == [] && heard == []
    {
      this.script, complete, disposed, spoken, heard := script, false, false, [], [];
    }

    method Speak() returns (turn: Turn)
      modifies `script, `complete, `spoken
      ensures turn == if old(script) == [] then Turn(None, true, false) else old(script)[0]
      ensures script == (if old(script) == [] then [] else old(script)[1..]) && complete == turn.complete
      ensures spoken == if turn.failed then old(spoken) else old(spoken) + [TokenBytes(turn.token)]
    {
      turn := if script == [] then Turn(None, true, false) else script[0];
      script := if script == [] then [] else script[1..];
      complete := turn.complete;
      if !turn.failed {
        spoken := spoken + [TokenBytes(turn.token)];
      }
    }

    method Step(challenge: Bytes) returns (turn: Turn)
      modifies `script, `complete, `spoken, `heard
      ensures turn == if old(script) == [] then Turn(None, true, false) else old(script)[0]
      ensures script == (if old(script) == [] then [] else old(script)[1..]) && complete == turn.complete
      ensures spoken == if turn.failed then old(spoken) else old(spoken) + [TokenBytes(turn.token)]
      ensures heard == old(heard) + [challenge]
    {
      heard := heard + [challenge];
      turn := Speak();
    }

    method Dispose()
      modifies `disposed
      ensures disposed
    {
      disposed := true;
    }
  }

  function Nth(xid: int, n: nat): int {
    if n == 0 then xid else Wrap32(Nth(xid, n - 1) + 1)
  }

  /** The request frames of the tokens, under consecutive XIDs. */
  function TokenFrames(xid: int, tokens: seq<Bytes>): Bytes {
    if tokens == [] then []
    else
      TokenFrames(xid, tokens[..|tokens| - 1])
      + TokenFrame(Nth(xid, |tokens|), tokens[|tokens| - 1])
  }

  /** The challenge in the next reply of a stream, and the stream behind it. */
  function Challenge(stream: Bytes, xid: int): Option<(Bytes, Bytes)> {
    var (frame, rest) := ReadFrame(stream);
    if frame.Err? then None
    else
      match ParseReply(frame.value, xid)
      case Err(_) => None
      case Ok(body) =>
        var (challenge, _) := ReadBytes(body, 0);
        if challenge.Err? then None else Some((challenge.value, rest))
  }

  /** The challenges of the first `n` replies, one for each XID in turn, and the stream behind them. */
  function Challenges(stream: Bytes, xid: int, n: nat): Option<(seq<Bytes>, Bytes)> {
    if n == 0 then Some(([], stream))
    else
      match Challenges(stream, xid, n - 1)
      case None => None
      case Some((challenges, left)) =>
        match Challenge(left, Nth(xid, n))
        case None => None
        case Some((challenge, rest)) => Some((challenges + [challenge], rest))
  }

  function TokenFrame(xid: int, token: Bytes): Bytes {
    Frame(EncInt32(xid) + EncInt32(OP_SASL) + EncBytes(Some(token)))
  }

  /** From `start` on, the tokens went out, each in one request, and the replies carried the challenges. */
  predicate Dialogue(start: Link, now: Link, tokens: seq<Bytes>, challenges: seq<Bytes>) {
    && now.xid == Nth(start.xid, |tokens|)
    && now.sent == start.sent + TokenFrames(start.xid, tokens)
    && Challenges(start.incoming, start.xid, |tokens|) == Some((challenges, now.incoming))
  }

  lemma TokensGrow(xid: int, tokens: seq<Bytes>, token: Bytes, frame: Bytes)
    requires frame == TokenFrame(Nth(xid, |tokens| + 1), token)
    ensures TokenFrames(xid, tokens + [token]) == TokenFrames(xid, tokens) + frame
  {
    assert (tokens + [token])[..|tokens|] == tokens;
  }

  lemma ChallengesGrow(stream: Bytes, xid: int, n: nat, challenges: seq<Bytes>, left: Bytes, challenge: Bytes, rest: Bytes)
    requires Challenges(stream, xid, n) == Some((challenges, left)) && Challenge(left, Nth(xid, n + 1)) == Some((challenge, rest))
    ensures Challenges(stream, xid, n + 1) == Some((challenges + [challenge], rest))
  {
  }

  lemma DialogueGrows(start: Link, now: Link, tokens: seq<Bytes>, token: Bytes, frame: Bytes, challenges: seq<Bytes>, next: Link)
    requires now.sent == start.sent + TokenFrames(start.xid, tokens) && next.sent == now.sent + frame
    requires TokenFrames(start.xid, tokens + [token]) == TokenFrames(start.xid, tokens) + frame
    requires next.xid == Nth(start.xid, |tokens| + 1)
    requires Challenges(start.incoming, start.xid, |tokens| + 1) == Some((challenges, next.incoming))
    ensures Dialogue(start, next, tokens + [token], challenges)
  {
    FirstThenRest(start.sent, TokenFrames(start.xid, tokens), frame);
    assert |tokens + [token]| == |tokens| + 1;
  }

  // ---- the rounds ----

  datatype Answer = Answer(challenge: Option<Bytes>, link: Link)

  /** One round: the token goes out in one request, and its reply carries the challenge. */
  function Round(link: Link, token: Bytes, arrived: nat): Answer {
    var (reply, next) := Requested(link, OP_SASL, EncBytes(Some(token)), arrived);
    if reply.Err? then Answer(None, next)
    else
      var (challenge, _) := ReadBytes(reply.value, 0);
      Answer(if challenge.Err? then None else Some(challenge.value), next)
  }

  datatype Talk = Broken | Talk(link: Link, challenges: seq<Bytes>)

  function Next(talk: Talk, token: Bytes, arrived: nat): Talk {
    if talk.Broken? then Broken
    else
      var answer := Round(talk.link, token, arrived);
      if answer.challenge.None? then Broken else Talk(answer.link, talk.challenges + [answer.challenge.value])
  }

  /** The first `n` rounds, with the challenges they bring. */
  function Rounds(link: Link, tokens: seq<Bytes>, arrivals: seq<nat>, n: nat): (talk: Talk)
    requires n <= |tokens| && n <= |arrivals|
    ensures talk.Talk? ==> |talk.challenges| == n
  {
    if n == 0 then Talk(link, []) else Next(Rounds(link, tokens, arrivals, n - 1), tokens[n - 1], arrivals[n - 1])
  }

  /** Rounds that fail are not made up for. */
  lemma {:induction false} BrokenStays(link: Link, tokens: seq<Bytes>, arrivals: seq<nat>, m: nat, n: nat)
    requires m <= n <= |tokens| && n <= |arrivals| && Rounds(link, tokens, arrivals, m).Broken?
    ensures Rounds(link, tokens, arrivals, n).Broken?
    decreases n
  {
    if m < n {
      BrokenStays(link, tokens, arrivals, m, n - 1);
    }
  }

  predicate Follows(start: Link, tokens: seq<Bytes>, talk: Talk) {
    talk.Talk? ==> Dialogue(start, talk.link, tokens, talk.challenges)
  }

  lemma NextFollows(start: Link, tokens: seq<Bytes>, talk: Talk, token: Bytes, arrived: nat)
    requires Follows(start, tokens, talk)
    ensures Follows(start, tokens + [token], Next(talk, token, arrived))
  {
    var next := Next(talk, token, arrived);
    if next.Talk? {
      SucceedsIff(talk.link, OP_SASL, EncBytes(Some(token)), arrived);
      ReadInTime(talk.link.incoming, arrived);
      var challenge := next.challenges[|talk.challenges|];
      ChallengesGrow(
        start.incoming, start.xid, |tokens|, talk.challenges, talk.link.incoming, challenge, next.link.incoming);
      var frame := TokenFrame(next.link.xid, token);
      TokensGrow(start.xid, tokens, token, frame);
      DialogueGrows(start, talk.link, tokens, token, frame, next.challenges, next.link);
    }
  }

  lemma {:induction false} RoundsAreDialogue(link: Link, tokens: seq<Bytes>, arrivals: seq<nat>, n: nat)
    requires n <= |tokens| && n <= |arrivals|
    ensures Follows(link, tokens[..n], Rounds(link, tokens, arrivals, n))
    decreases n
  {
    if n == 0 {
      assert link.sent + [] == link.sent;
    } else {
      RoundsAreDialogue(link, tokens, arrivals, n - 1);
      NextFollows(link, tokens[..n - 1], Rounds(link, tokens, arrivals, n - 1), tokens[n - 1], arrivals[n - 1]);
      assert tokens[..n - 1] + [tokens[n - 1]] == tokens[..n];
    }
  }

  // ---- when it succeeds ----

  function Tokens(script: seq<Turn>): (tokens: seq<Bytes>)
    ensures |tokens| == |script|
  {
    seq(|script|, i requires 0 <= i < |script| => TokenBytes(script[i].token))
  }

  /** The mechanism is complete with its turn number `n` and not before, no turn fails, all `n` rounds go through, and
      the last challenge is empty. */
  predicate Concludes(link: Link, script: seq<Turn>, arrivals: seq<nat>, n: nat) {
    && 1 <= n <= |script| && n <= |arrivals| && script[n - 1].complete
    && (forall i :: 0 <= i < n ==> !script[i].failed)
    && (forall i :: 0 <= i < n - 1 ==> !script[i].complete)
    && var talk := Rounds(link, Tokens(script), arrivals, n);
       talk.Talk? && talk.challenges[n - 1] == []
  }

  ghost predicate Negotiates(link: Link, script: seq<Turn>, arrivals: seq<nat>) {
    exists n :: Concludes(link, script, arrivals, n)
  }

  /** Round number `r` cannot be passed, and is not the one that concludes. */
  predicate Blocked(link: Link, script: seq<Turn>, arrivals: seq<nat>, r: nat) {
    || r >= |script| || r >= |arrivals| || script[r].failed
    || var talk := Rounds(link, Tokens(script), arrivals, r + 1);
       talk.Broken? || (script[r].complete && talk.challenges[r] != [])
  }

  lemma BlockedAt(link: Link, script: seq<Turn>, arrivals: seq<nat>, r: nat, n: nat)
    requires r <= |script| && (forall i :: 0 <= i < r ==> !script[i].complete) && Blocked(link, script, arrivals, r)
    ensures !Concludes(link, script, arrivals, n)
  {
    if r < n <= |script| && n <= |arrivals| && Rounds(link, Tokens(script), arrivals, r + 1).Broken? {
      BrokenStays(link, Tokens(script), arrivals, r + 1, n);
    }
  }

  lemma BlockedNever(link: Link, script: seq<Turn>, arrivals: seq<nat>, r: nat)
    requires r <= |script| && (forall i :: 0 <= i < r ==> !script[i].complete) && Blocked(link, script, arrivals, r)
    ensures !Negotiates(link, script, arrivals)
  {
    forall n: nat
      ensures !Concludes(link, script, arrivals, n)
    {
      BlockedAt(link, script, arrivals, r, n);
    }
  }

  /** Round number `round` is about to begin: the mechanism has had its turn, and all rounds before went through
      without completing it. */
  predicate Reached(start: Link, script: seq<Turn>, arrivals: seq<nat>, round: nat, link: Link, heard: seq<Bytes>) {
    && round < |script| && round <= |arrivals|
    && (forall i :: 0 <= i <= round ==> !script[i].failed)
    && (forall i :: 0 <= i < round ==> !script[i].complete)
    && Rounds(start, Tokens(script), arrivals, round) == Talk(link, heard)
  }

  /** What the answer of a round makes of the negotiation. */
  ghost predicate Decided(start: Link, script: seq<Turn>, arrivals: seq<nat>, round: nat, heard: seq<Bytes>, answer: Answer)
    requires round < |script|
  {
    if answer.challenge.None? then !Negotiates(start, script, arrivals)
    else if script[round].complete then
      && (Negotiates(start, script, arrivals) <==> answer.challenge.value == [])
      && Dialogue(start, answer.link, Tokens(script)[..round + 1], heard + [answer.challenge.value])
    else if round + 1 < |script| && !script[round + 1].failed then
      Reached(start, script, arrivals, round + 1, answer.link, heard + [answer.challenge.value])
    else !Negotiates(start, script, arrivals)
  }

  lemma AnswerDecides(
    start: Link, script: seq<Turn>, arrivals: seq<nat>, round: nat, link: Link, heard: seq<Bytes>, answer: Answer)
    requires Reached(start, script, arrivals, round, link, heard) && round < |arrivals|
    requires answer == Round(link, TokenBytes(script[round].token), arrivals[round])
    ensures Decided(start, script, arrivals, round, heard, answer)
  {
    NextRound(start, script, arrivals, round, link, heard, answer);
    if answer.challenge.None? {
      BlockedNever(start, script, arrivals, round);
    } else if script[round].complete {
      CompleteDecides(start, script, arrivals, round, heard, answer.link, answer.challenge.value);
    } else if round + 1 >= |script| || script[round + 1].failed {
      BlockedNever(start, script, arrivals, round + 1);
    }
  }

  /** The round in which the mechanism is complete concludes, if its challenge is empty. */
  lemma CompleteDecides(
    start: Link, script: seq<Turn>, arrivals: seq<nat>, round: nat, heard: seq<Bytes>, link: Link, challenge: Bytes)
    requires round < |script| && round < |arrivals| && script[round].complete && |heard| == round
    requires forall i :: 0 <= i <= round ==> !script[i].failed
    requires forall i :: 0 <= i < round ==> !script[i].complete
    requires Rounds(start, Tokens(script), arrivals, round + 1) == Talk(link, heard + [challenge])
    ensures Negotiates(start, script, arrivals) <==> challenge == []
    ensures Dialogue(start, link, Tokens(script)[..round + 1], heard + [challenge])
  {
    RoundsAreDialogue(start, Tokens(script), arrivals, round + 1);
    if challenge == [] {
      assert Concludes(start, script, arrivals, round + 1);
    } else {
      BlockedNever(start, script, arrivals, round);
    }
  }

  lemma NextRound(
    start: Link, script: seq<Turn>, arrivals: seq<nat>, round: nat, link: Link, heard: seq<Bytes>, answer: Answer)
    requires Reached(start, script, arrivals, round, link, heard) && round < |arrivals|
    requires answer == Round(link, TokenBytes(script[round].token), arrivals[round])
    ensures Rounds(start, Tokens(script), arrivals, round + 1) ==
            if answer.challenge.None? then Broken else Talk(answer.link, heard + [answer.challenge.value])
  {
  }

  /** One round on the client. */
  method Exchange(client: Client, token: Bytes, arrived: nat) returns (challenge: Option<Bytes>)
    modifies client, client.connection
    ensures Answer(challenge, client.View()) == Round(old(client.View()), token, arrived)
  {
    var encoder := new Encoder();
    encoder.WriteBytes(Some(token));
    assert [] + EncBytes(Some(token)) == EncBytes(Some(token));
    var reply := client.Request(OP_SASL, encoder.buffer, arrived);
    if reply.Err? {
      return None;
    }
    var decoder := new Decoder(reply.value);
    var read := decoder.ReadBuffer();
    if read.Err? {
      return None;
    }
    return Some(read.value);
  }

  /** The mechanism has had turn number `round`, and said all the tokens up to it. */
  predicate Said(script: seq<Turn>, round: nat, turn: Turn, complete: bool, rest: seq<Turn>, spoken: seq<Bytes>) {
    && round < |script| && turn == script[round] && complete == turn.complete
    && rest == script[round + 1..] && spoken == Tokens(script)[..round + 1]
  }

  lemma SaidNext(script: seq<Turn>, round: nat, turn: Turn, complete: bool, rest: seq<Turn>, spoken: seq<Bytes>)
    requires Said(script, round, turn, complete, rest, spoken)
    ensures rest == [] <==> round + 1 == |script|
    ensures rest != [] ==>
            && rest[0] == script[round + 1]
            && Said(script, round + 1, rest[0], rest[0].complete, rest[1..], spoken + [TokenBytes(rest[0].token)])
  {
  }

  ghost predicate InPlay(
    client: Client, mechanism: Mechanism, turn: Turn, start: Link, script: seq<Turn>, arrivals: seq<nat>, round: nat)
    reads client, client.connection, mechanism
  {
    && Reached(start, script, arrivals, round, client.View(), mechanism.heard)
    && Said(script, round, turn, mechanism.complete, mechanism.script, mechanism.spoken)
  }

  ghost predicate Won(
    client: Client, mechanism: Mechanism, start: Link, script: seq<Turn>, arrivals: seq<nat>)
    reads client, client.connection, mechanism
  {
    && Negotiates(start, script, arrivals) && mechanism.complete && 1 <= |mechanism.spoken| <= |arrivals|
    && Dialogue(start, client.View(), mechanism.spoken, mechanism.heard + [[]])
  }

  /** The exchange, and what it decides. */
  method Deciding(client: Client, turn: Turn, arrived: nat,
                  ghost start: Link, ghost script: seq<Turn>, ghost arrivals: seq<nat>, ghost round: nat, ghost heard: seq<Bytes>)
    returns (challenge: Option<Bytes>)
    requires Reached(start, script, arrivals, round, client.View(), heard)
    requires round < |arrivals| && turn == script[round] && arrived == arrivals[round]
    modifies client, client.connection
    ensures Decided(start, script, arrivals, round, heard, Answer(challenge, client.View()))
  {
    ghost var before := client.View();
    challenge := Exchange(client, TokenBytes(turn.token), arrived);
    AnswerDecides(start, script, arrivals, round, before, heard, Answer(challenge, client.View()));
  }

  datatype Standing = Going(turn: Turn) | Done(ok: bool)

  /** The body of the loop: the exchange, and the next turn of the mechanism unless it is complete. */
  method PlayRound(client: Client, mechanism: Mechanism, turn: Turn, arrived: nat,
                   ghost start: Link, ghost script: seq<Turn>, ghost arrivals: seq<nat>, ghost round: nat)
    returns (standing: Standing)
    requires InPlay(client, mechanism, turn, start, script, arrivals, round)
    requires round < |arrivals| && arrived == arrivals[round]
    modifies client, client.connection, mechanism`script, mechanism`complete, mechanism`spoken, mechanism`heard
    ensures standing.Going? ==> InPlay(client, mechanism, standing.turn, start, script, arrivals, round + 1)
    ensures standing == Done(true) ==> Won(client, mechanism, start, script, arrivals)
    ensures standing == Done(false) ==> !Negotiates(start, script, arrivals)
  {
    var challenge := Deciding(client, turn, arrived, start, script, arrivals, round, mechanism.heard);
    if challenge.None? {
      return Done(false);
    }
    if mechanism.complete {
      return Done(challenge.value == []);
    }
    SaidNext(script, round, turn, mechanism.complete, mechanism.script, mechanism.spoken);
    var next := mechanism.Step(challenge.value);
    if next.failed {
      return Done(false);
    }
    return Going(next);
  }

  /** It succeeds exactly when some turn within eight rounds concludes. Then every token went out once and in order,
      each answered by one reply; every challenge but the last was given to the mechanism once and in order; and the
      last one was empty. Whatever happens, the mechanism is disposed of. */
  method Authenticate(client: Client, mechanism: Mechanism, arrivals: seq<nat>) returns (ok: bool)
    requires |arrivals| == 8 && mechanism.spoken == [] && mechanism.heard == []
    modifies client, client.connection, mechanism
    ensures mechanism.disposed
    ensures ok <==> Negotiates(old(client.View()), old(mechanism.script), arrivals)
    ensures ok ==> 1 <= |mechanism.spoken| <= 8 && mechanism.complete
    ensures ok ==> Dialogue(old(client.View()), client.View(), mechanism.spoken, mechanism.heard + [[]])
  {
    ghost var start, script := client.View(), mechanism.script;
    var turn := mechanism.Speak();
    ok := false;
    if turn.failed {
      BlockedNever(start, script, arrivals, 0);
    } else {
      ok := Converse(client, mechanism, turn, arrivals, start, script);
    }
    mechanism.Dispose();
  }

  method Converse(client: Client, mechanism: Mechanism, first: Turn, arrivals: seq<nat>, ghost start: Link, ghost script: seq<Turn>)
    returns (ok: bool)
    requires |arrivals| == 8 && InPlay(client, mechanism, first, start, script, arrivals, 0)
    modifies client, client.connection, mechanism`script, mechanism`complete, mechanism`spoken, mechanism`heard
    ensures ok <==> Negotiates(start, script, arrivals)
    ensures ok ==> Won(client, mechanism, start, script, arrivals)
  {
    var turn := first;
    for round := 0 to MAX_ROUNDS
      invariant InPlay(client, mechanism, turn, start, script, arrivals, round)
    {
      var standing := PlayRound(client, mechanism, turn, arrivals[round], start, script, arrivals, round);
      if standing.Done? {
        return standing.ok;
      }
      turn := standing.turn;
    }
    BlockedNever(start, script, arrivals, |arrivals|);
    return false;
  }
}
