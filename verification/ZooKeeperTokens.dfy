/** What the ZooKeeper server reads of a SASL negotiation: the client's tokens, each once and in order. */
module ZooKeeperTokens {
  import opened BigEndian
  import opened Common
  import opened ZooKeeperClient
  import opened ZooKeeperCodec
  import opened ZooKeeperFrames
  import opened ZooKeeperRoundTrip
  import opened ZooKeeperSasl

  function TokenPayload(xid: int, token: Bytes): Bytes {
    RequestPayload(xid, 102, EncBytes(Some(token)))
  }

  function TokenPayloads(xid: int, tokens: seq<Bytes>): seq<Bytes> {
    seq(|tokens|, i requires 0 <= i < |tokens| => TokenPayload(Nth(xid, i + 1), tokens[i]))
  }

  lemma {:induction false} FramesSnoc(payloads: seq<Bytes>, payload: Bytes)
    ensures Frames(payloads + [payload]) == Frames(payloads) + Frame(payload)
    decreases |payloads|
  {
    if payloads == [] {
      assert ([] + [payload])[1..] == [] && Frame(payload) + [] == Frame(payload);
    } else {
      FramesSnoc(payloads[1..], payload);
      assert (payloads + [payload])[1..] == payloads[1..] + [payload];
      FirstThenRest(Frame(payloads[0]), Frames(payloads[1..]), Frame(payload));
    }
  }

  lemma PayloadsSnoc(xid: int, tokens: seq<Bytes>)
    requires tokens != []
    ensures var n := |tokens|;
      TokenPayloads(xid, tokens) == TokenPayloads(xid, tokens[..n - 1]) + [TokenPayload(Nth(xid, n), tokens[n - 1])]
  {
  }

  lemma {:induction false} TokenFramesAreFrames(xid: int, tokens: seq<Bytes>)
    ensures TokenFrames(xid, tokens) == Frames(TokenPayloads(xid, tokens))
    decreases |tokens|
  {
    if tokens != [] {
      var init, last := tokens[..|tokens| - 1], tokens[|tokens| - 1];
      TokenFramesAreFrames(xid, init);
      PayloadsSnoc(xid, tokens);
      FramesSnoc(TokenPayloads(xid, init), TokenPayload(Nth(xid, |tokens|), last));
    }
  }

  predicate Fit(tokens: seq<Bytes>) {
    forall i :: 0 <= i < |tokens| ==> 12 + |tokens[i]| <= MAX_FRAME_SIZE
  }

  /** A negotiation that goes on has sent nothing that is too large for a frame. */
  predicate Sized(tokens: seq<Bytes>, talk: Talk) {
    talk.Talk? ==> Fit(tokens)
  }

  lemma NextSized(tokens: seq<Bytes>, talk: Talk, token: Bytes, arrived: nat)
    requires Sized(tokens, talk)
    ensures Sized(tokens + [token], Next(talk, token, arrived))
  {
    if Next(talk, token, arrived).Talk? {
      FailsIff(talk.link, OP_SASL, EncBytes(Some(token)), arrived, Malformed(UnexpectedEnd));
    }
  }

  lemma {:induction false} RoundsSized(link: Link, tokens: seq<Bytes>, arrivals: seq<nat>, n: nat)
    requires n <= |tokens| && n <= |arrivals|
    ensures Sized(tokens[..n], Rounds(link, tokens, arrivals, n))
    decreases n
  {
    if n > 0 {
      RoundsSized(link, tokens, arrivals, n - 1);
      NextSized(tokens[..n - 1], Rounds(link, tokens, arrivals, n - 1), tokens[n - 1], arrivals[n - 1]);
      assert tokens[..n - 1] + [tokens[n - 1]] == tokens[..n];
    }
  }

  /** One request is a SASL request under its XID that carries the token, which is empty where the mechanism had none. */
  predicate Carries(payload: Bytes, xid: int, token: Bytes) {
    && ReadInt32(payload, 0) == (Ok(xid), 4) && ReadInt32(payload, 4) == (Ok(102), 8)
    && ReadBytes(payload, 8) == (Ok(token), |payload|)
  }

  lemma TokenCarried(xid: int, token: Bytes)
    requires -TWO_31 <= xid < TWO_31 && 12 + |token| <= MAX_FRAME_SIZE
    ensures Carries(TokenPayload(xid, token), xid, token) && |TokenPayload(xid, token)| == 12 + |token|
  {
    var payload, body := TokenPayload(xid, token), EncBytes(Some(token));
    RequestRead(xid, 102, body);
    assert payload[8..] == body && |body| == 4 + |token|;
    assert At(payload, 8, body);
    BufferRoundTrip(payload, 8, Some(token));
  }

  predicate AllCarried(xid: int, tokens: seq<Bytes>, payloads: seq<Bytes>) {
    |payloads| == |tokens| && forall i :: 0 <= i < |tokens| ==> Carries(payloads[i], Wrap32(xid + i + 1), tokens[i])
  }

  lemma TokensCarried(xid: int, tokens: seq<Bytes>)
    requires Fit(tokens)
    ensures AllCarried(xid, tokens, TokenPayloads(xid, tokens))
    ensures forall i :: 0 <= i < |tokens| ==> |TokenPayloads(xid, tokens)[i]| <= MAX_FRAME_SIZE
  {
    var payloads := TokenPayloads(xid, tokens);
    forall i | 0 <= i < |tokens|
      ensures Carries(payloads[i], Wrap32(xid + i + 1), tokens[i]) && |payloads[i]| <= MAX_FRAME_SIZE
    {
      NthIs(xid, i + 1);
      TokenCarried(Nth(xid, i + 1), tokens[i]);
    }
  }

  lemma TokensRead(xid: int, tokens: seq<Bytes>, payloads: seq<Bytes>)
    requires Fit(tokens) && payloads == TokenPayloads(xid, tokens)
    ensures ReadFrames(Frames(payloads), |payloads|) == (Ok(payloads), [])
  {
    TokensCarried(xid, tokens);
    FramesRoundTrip(payloads, []);
    assert Frames(payloads) + [] == Frames(payloads);
  }

  /** After any number of rounds, what the client sent is read by the server frame by frame, each a SASL request under
      the next XID with the next token. */
  lemma ServerReadsTokens(link: Link, tokens: seq<Bytes>, arrivals: seq<nat>, n: nat) returns (payloads: seq<Bytes>)
    requires n <= |tokens| && n <= |arrivals| && Rounds(link, tokens, arrivals, n).Talk?
    ensures Rounds(link, tokens, arrivals, n).link.sent == link.sent + Frames(payloads)
    ensures ReadFrames(Frames(payloads), n) == (Ok(payloads), []) && AllCarried(link.xid, tokens[..n], payloads)
  {
    payloads := TokenPayloads(link.xid, tokens[..n]);
    RoundsSized(link, tokens, arrivals, n);
    TokensCarried(link.xid, tokens[..n]);
    TokensRead(link.xid, tokens[..n], payloads);
    SentIs(link, tokens, arrivals, n);
  }

  /** In terms of the mechanism's turns: a turn without a token is read as an empty one. */
  lemma ServerReadsTurns(link: Link, script: seq<Turn>, arrivals: seq<nat>, n: nat) returns (payloads: seq<Bytes>)
    requires n <= |script| && n <= |arrivals| && Rounds(link, Tokens(script), arrivals, n).Talk?
    ensures |payloads| == n && Rounds(link, Tokens(script), arrivals, n).link.sent == link.sent + Frames(payloads)
    ensures ReadFrames(Frames(payloads), n) == (Ok(payloads), [])
    ensures forall i :: 0 <= i < n ==>
      Carries(payloads[i], Wrap32(link.xid + i + 1), if script[i].token.None? then [] else script[i].token.value)
  {
    payloads := ServerReadsTokens(link, Tokens(script), arrivals, n);
    forall i | 0 <= i < n
      ensures Carries(payloads[i], Wrap32(link.xid + i + 1), if script[i].token.None? then [] else script[i].token.value)
    {
      assert Tokens(script)[..n][i] == TokenBytes(script[i].token);
    }
  }

  lemma SentIs(link: Link, tokens: seq<Bytes>, arrivals: seq<nat>, n: nat)
    requires n <= |tokens| && n <= |arrivals| && Rounds(link, tokens, arrivals, n).Talk?
    ensures Rounds(link, tokens, arrivals, n).link.sent == link.sent + Frames(TokenPayloads(link.xid, tokens[..n]))
  {
    RoundsAreDialogue(link, tokens, arrivals, n);
    TokenFramesAreFrames(link.xid, tokens[..n]);
  }

  lemma {:induction false} NthIs(xid: int, n: nat)
    requires n >= 1
    ensures Nth(xid, n) == Wrap32(xid + n)
    decreases n
  {
    if n > 1 {
      NthIs(xid, n - 1);
      WrapAdds(xid + n - 1);
    }
  }

  lemma WrapAdds(v: int)
    ensures Wrap32(Wrap32(v) + 1) == Wrap32(v + 1)
  {
  }
}
