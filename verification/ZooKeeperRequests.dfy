/** The request bodies of the ZooKeeper client (agents/drivers/hive-go/zookeeper_protocol.go): what it encodes, a decoder
    reads back. */
module ZooKeeperRequests {
  import opened BigEndian
  import opened Common
  import opened ZooKeeperCodec
  import opened ZooKeeperRoundTrip

  function ConnectFields(millis: int): seq<Field> {
    [I32(0), I64(0), I32(millis), I64(0), Buffer(Some(seq(16, _ => 0)))]
  }

  function AuthFields(scheme: Bytes, auth: Option<Bytes>): seq<Field> {
    [I32(0), Buffer(Some(scheme)), Buffer(auth)]
  }

  lemma {:induction false} ConcatOneMore(chunks: seq<Bytes>, chunk: Bytes)
    ensures Concat(chunks + [chunk]) == Concat(chunks) + chunk
    decreases |chunks|
  {
    if chunks == [] {
      assert ([] + [chunk])[1..] == [] && chunk + [] == chunk;
    } else {
      ConcatOneMore(chunks[1..], chunk);
      assert (chunks + [chunk])[1..] == chunks[1..] + [chunk];
    }
  }

  lemma EncodeOneMore(fs: seq<Field>, f: Field)
    ensures EncodeAll(fs + [f]) == EncodeAll(fs) + Encode(f)
  {
    assert FieldChunks(fs + [f]) == FieldChunks(fs) + [Encode(f)];
    ConcatOneMore(FieldChunks(fs), Encode(f));
  }

  lemma EncodeUpTo(fs: seq<Field>, n: nat)
    requires n < |fs|
    ensures EncodeAll(fs[..n + 1]) == EncodeAll(fs[..n]) + Encode(fs[n])
  {
    assert fs[..n + 1] == fs[..n] + [fs[n]];
    EncodeOneMore(fs[..n], fs[n]);
  }

  /** The bytes are read back as the fields, and nothing is left of them. */
  predicate ReadsBack(fs: seq<Field>, bytes: Bytes) {
    DecodeAll(fs, bytes, 0) == (Ok(SeenAll(fs)), |bytes|)
  }

  lemma EncodedReadsBack(fs: seq<Field>, bytes: Bytes)
    requires bytes == EncodeAll(fs) && forall f :: f in fs ==> Sendable(f)
    ensures ReadsBack(fs, bytes)
  {
    FieldsRoundTrip(bytes, 0, fs);
  }

  /** The first frame of a connection. */
  method ConnectPayload(millis: int) returns (payload: Bytes)
    requires -TWO_31 <= millis < TWO_31
    ensures ReadsBack(ConnectFields(millis), payload)
  {
    ghost var fs := ConnectFields(millis);
    var encoder := new Encoder();
    EncodeUpTo(fs, 0);
    encoder.Int32(0);
    EncodeUpTo(fs, 1);
    encoder.Int64(0);
    EncodeUpTo(fs, 2);
    encoder.Int32(millis);
    EncodeUpTo(fs, 3);
    encoder.Int64(0);
    EncodeUpTo(fs, 4);
    encoder.WriteBytes(Some(seq(16, _ => 0)));
    payload := encoder.buffer;
    assert fs[..5] == fs;
    EncodedReadsBack(fs, payload);
  }

  /** The body of an authentication request. */
  method AuthBody(scheme: Bytes, auth: Option<Bytes>) returns (body: Bytes)
    ensures body == EncodeAll(AuthFields(scheme, auth))
    ensures |scheme| < TWO_31 && (auth.Some? ==> |auth.value| < TWO_31) ==> ReadsBack(AuthFields(scheme, auth), body)
  {
    ghost var fs := AuthFields(scheme, auth);
    var encoder := new Encoder();
    EncodeUpTo(fs, 0);
    encoder.Int32(0);
    EncodeUpTo(fs, 1);
    encoder.WriteString(scheme);
    EncodeUpTo(fs, 2);
    encoder.WriteBytes(auth);
    body := encoder.buffer;
    assert fs[..3] == fs;
    if |scheme| < TWO_31 && (auth.Some? ==> |auth.value| < TWO_31) {
      EncodedReadsBack(fs, body);
    }
  }

  /** The body of the requests for children and for data: the path, and no watch. The path survives exactly when its
      length fits an int32. */
  method PathBody(path: Bytes) returns (body: Bytes)
    ensures body == EncBytes(Some(path)) + [0]
    ensures ReadBytes(body, 0).0 == Ok(path) <==> |path| < TWO_31
    ensures |path| < TWO_31 ==> ReadBytes(body, 0).1 == |body| - 1
  {
    var encoder := new Encoder();
    encoder.WriteString(path);
    encoder.Boolean(false);
    body := encoder.buffer;
    assert body == EncBytes(Some(path)) + [0];
    BufferSurvivesIff(path, [0]);
    if |path| < TWO_31 {
      BufferRoundTrip(body, 0, Some(path));
    }
  }
}
