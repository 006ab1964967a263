/** Decoding undoes encoding, field list by field list, and the decoder's limits refuse
    nothing that a legal frame can hold. */
module ZooKeeperRoundTrip {
  import opened Common
  import opened BigEndian
  import opened ZooKeeperCodec

  /** A value of the wire format. */
  datatype Field =
    | I32(i: int)
    | I64(l: int)
    | Buffer(buffer: Option<Bytes>)
    | Strings(strings: seq<Bytes>)

  function Encode(f: Field): Bytes {
    match f
    case I32(v) => EncInt32(v)
    case I64(v) => EncInt64(v)
    case Buffer(v) => EncBytes(v)
    case Strings(v) => EncVector(v)
  }

  function EncodeAll(fs: seq<Field>): Bytes {
    Concat(FieldChunks(fs))
  }

  function FieldChunks(fs: seq<Field>): seq<Bytes> {
    seq(|fs|, i requires 0 <= i < |fs| => Encode(fs[i]))
  }

  /** What the decoder reports: a nil buffer is an empty one. */
  function Seen(f: Field): Field {
    if f == Buffer(None) then Buffer(Some([])) else f
  }

  function SeenAll(fs: seq<Field>): seq<Field> {
    seq(|fs|, i requires 0 <= i < |fs| => Seen(fs[i]))
  }

  /** Reads one field of the same type as `shape`. */
  function Decode(shape: Field, data: Bytes, offset: nat): (Read<Field>, nat)
  {
    match shape
    case I32(_) =>
      var (v, next) := ReadInt32(data, offset);
      (if v.Err? then Err(v.error) else Ok(I32(v.value)), next)
    case I64(_) =>
      var (v, next) := ReadInt64(data, offset);
      (if v.Err? then Err(v.error) else Ok(I64(v.value)), next)
    case Buffer(_) =>
      var (v, next) := ReadBytes(data, offset);
      (if v.Err? then Err(v.error) else Ok(Buffer(Some(v.value))), next)
    case Strings(_) =>
      var (v, next) := ReadVector(data, offset, MAX_VECTOR);
      (if v.Err? then Err(v.error) else Ok(Strings(v.value)), next)
  }

  function FieldReader(shapes: seq<Field>, data: Bytes): (nat, nat) -> (Read<Field>, nat) {
    (i: nat, offset: nat) => if i < |shapes| then Decode(shapes[i], data, offset) else (Err(UnexpectedEnd), offset)
  }

  /** Reads fields of these types, one after the other. */
  function DecodeAll(shapes: seq<Field>, data: Bytes, offset: nat): (Read<seq<Field>>, nat) {
    ReadMany(FieldReader(shapes, data), 0, |shapes|, offset, [])
  }

  /** A value of the Go types that the encoder takes, small enough that no length wraps. */
  predicate Sendable(f: Field) {
    match f
    case I32(v) => -TWO_31 <= v < TWO_31
    case I64(v) => -TWO_63 <= v < TWO_63
    case Buffer(v) => v.Some? ==> |v.value| < TWO_31
    case Strings(v) => |v| <= MAX_VECTOR && forall s :: s in v ==> |s| < TWO_31
  }

  // ---- one field ----

  lemma Int32RoundTrip(data: Bytes, offset: nat, v: int)
    requires -TWO_31 <= v < TWO_31 && At(data, offset, EncInt32(v))
    ensures ReadInt32(data, offset) == (Ok(v), offset + 4)
  {
    Widths();
    AtSlice(data, offset, EncInt32(v));
    SignedRoundTrip(v, 4, TWO_31);
  }

  lemma Int64RoundTrip(data: Bytes, offset: nat, v: int)
    requires -TWO_63 <= v < TWO_63 && At(data, offset, EncInt64(v))
    ensures ReadInt64(data, offset) == (Ok(v), offset + 8)
  {
    Widths();
    AtSlice(data, offset, EncInt64(v));
    SignedRoundTrip(v, 8, TWO_63);
  }

  lemma BufferRoundTrip(data: Bytes, offset: nat, v: Option<Bytes>)
    requires v.Some? ==> |v.value| < TWO_31
    requires At(data, offset, EncBytes(v))
    ensures ReadBytes(data, offset) == (Ok(if v.None? then [] else v.value), offset + |EncBytes(v)|)
  {
    if v.None? {
      Int32RoundTrip(data, offset, -1);
    } else {
      assert Wrap32(|v.value|) == |v.value|;
      AtSplit(data, offset, EncInt32(|v.value|), v.value);
      AtSlice(data, offset + 4, v.value);
      Int32RoundTrip(data, offset, |v.value|);
    }
  }

  /** What a length at the offset decides: the buffer, or which fault. */
  lemma BufferOutcome(data: Bytes, offset: nat, n: int)
    requires -TWO_31 <= n < TWO_31 && At(data, offset, EncInt32(n))
    ensures ReadBytes(data, offset) ==
            if n < -1 then (Err(BadBufferLength(n)), offset + 4)
            else if n == -1 then (Ok([]), offset + 4)
            else if offset + 4 + n > |data| then (Err(UnexpectedEnd), offset + 4)
            else (Ok(data[offset + 4..offset + 4 + n]), offset + 4 + n)
  {
    Int32RoundTrip(data, offset, n);
  }

  /** A vector that announces more strings than a frame has room for is refused before any of them is read. */
  lemma VectorOutcome(data: Bytes, offset: nat, n: int)
    requires -TWO_31 <= n < TWO_31 && At(data, offset, EncInt32(n))
    ensures n < -1 || n > 4194304 ==> ReadVector(data, offset, MAX_VECTOR) == (Err(BadVectorLength(n)), offset + 4)
    ensures n == -1 || n == 0 ==> ReadVector(data, offset, MAX_VECTOR) == (Ok([]), offset + 4)
    ensures n >= 1 && n <= 4194304 ==> ReadVector(data, offset, MAX_VECTOR).0 != Err(BadVectorLength(n))
  {
    Int32RoundTrip(data, offset, n);
    if 1 <= n <= 4194304 {
      NoVectorFault(data, 0, n, offset + 4, []);
    }
  }

  lemma {:induction false} NoVectorFault(data: Bytes, index: nat, count: nat, offset: nat, done: seq<Bytes>)
    ensures var r := ReadMany(StringReader(data), index, count, offset, done).0; r.Err? ==> !r.error.BadVectorLength?
    decreases count
  {
    if count > 0 {
      var (value, next) := ReadBytes(data, offset);
      if value.Ok? {
        NoVectorFault(data, index + 1, count - 1, next, done + [value.value]);
      }
    }
  }

  // ---- chunks that follow one another ----

  /** Where each chunk starts, and where the last one ends. */
  function Starts(offset: nat, chunks: seq<Bytes>): (os: seq<nat>)
    ensures |os| == |chunks| + 1 && os[0] == offset && os[|chunks|] == offset + |Concat(chunks)|
    decreases |chunks|
  {
    if chunks == [] then [offset] else [offset] + Starts(offset + |chunks[0]|, chunks[1..])
  }

  lemma {:induction false} ChunksAt(data: Bytes, offset: nat, chunks: seq<Bytes>, i: nat)
    requires At(data, offset, Concat(chunks)) && i < |chunks|
    ensures At(data, Starts(offset, chunks)[i], chunks[i])
    ensures Starts(offset, chunks)[i + 1] == Starts(offset, chunks)[i] + |chunks[i]|
    decreases |chunks|
  {
    AtSplit(data, offset, chunks[0], Concat(chunks[1..]));
    if i > 0 {
      ChunksAt(data, offset + |chunks[0]|, chunks[1..], i - 1);
    }
  }

  /** A reader that finds each value at the next offset reads them all. */
  lemma {:induction false} ReadManyChain<T>(read: (nat, nat) -> (Read<T>, nat), index: nat, offsets: seq<nat>, v: seq<T>, done: seq<T>)
    requires |offsets| == |v| + 1
    requires forall i :: 0 <= i < |v| ==> read(index + i, offsets[i]) == (Ok(v[i]), offsets[i + 1])
    ensures ReadMany(read, index, |v|, offsets[0], done) == (Ok(done + v), offsets[|v|])
    decreases |v|
  {
    if v == [] {
      assert done + v == done;
    } else {
      assert read(index + 0, offsets[0]) == (Ok(v[0]), offsets[1]);
      forall i | 0 <= i < |v[1..]|
        ensures read(index + 1 + i, offsets[1..][i]) == (Ok(v[1..][i]), offsets[1..][i + 1])
      {
        assert read(index + (i + 1), offsets[i + 1]) == (Ok(v[i + 1]), offsets[i + 2]);
      }
      ReadManyChain(read, index + 1, offsets[1..], v[1..], done + [v[0]]);
      assert done + [v[0]] + v[1..] == done + v;
    }
  }

  /** Wherever chunk number i stands in the data, the reader returns value number i and moves
      past the chunk. */
  ghost predicate Undoes<T(!new)>(read: (nat, nat) -> (Read<T>, nat), data: Bytes, chunks: seq<Bytes>, v: seq<T>) {
    |chunks| == |v| &&
    forall i: nat, o: nat :: i < |v| && At(data, o, chunks[i]) ==> read(i, o) == (Ok(v[i]), o + |chunks[i]|)
  }

  /** A reader that undoes each chunk undoes their concatenation. */
  lemma ReadManyChunks<T(!new)>(read: (nat, nat) -> (Read<T>, nat), data: Bytes, offset: nat, chunks: seq<Bytes>, v: seq<T>)
    requires Undoes(read, data, chunks, v) && At(data, offset, Concat(chunks))
    ensures ReadMany(read, 0, |v|, offset, []) == (Ok(v), offset + |Concat(chunks)|)
  {
    var offsets := Starts(offset, chunks);
    forall i | 0 <= i < |v|
      ensures read(0 + i, offsets[i]) == (Ok(v[i]), offsets[i + 1])
    {
      ChunksAt(data, offset, chunks, i);
    }
    ReadManyChain(read, 0, offsets, v, []);
    assert [] + v == v;
  }

  lemma StringsUndone(data: Bytes, v: seq<Bytes>)
    requires forall s :: s in v ==> |s| < TWO_31
    ensures Undoes(StringReader(data), data, StringChunks(v), v)
  {
    var read, chunks := StringReader(data), StringChunks(v);
    forall i: nat, o: nat | i < |v| && At(data, o, chunks[i])
      ensures read(i, o) == (Ok(v[i]), o + |chunks[i]|)
    {
      StringAt(data, v, i, o);
      BufferRoundTrip(data, o, Some(v[i]));
    }
  }

  lemma StringAt(data: Bytes, v: seq<Bytes>, i: nat, o: nat)
    requires i < |v|
    ensures StringReader(data)(i, o) == ReadBytes(data, o) && StringChunks(v)[i] == EncBytes(Some(v[i])) && v[i] in v
  {
  }

  lemma VectorRoundTrip(data: Bytes, offset: nat, v: seq<Bytes>)
    requires |v| <= MAX_VECTOR && forall s :: s in v ==> |s| < TWO_31
    requires At(data, offset, EncVector(v))
    ensures ReadVector(data, offset, MAX_VECTOR) == (Ok(v), offset + |EncVector(v)|)
  {
    AtSplit(data, offset, EncInt32(|v|), EncStrings(v));
    Int32RoundTrip(data, offset, |v|);
    StringsUndone(data, v);
    ReadManyChunks(StringReader(data), data, offset + 4, StringChunks(v), v);
  }

  lemma FieldRoundTrip(data: Bytes, offset: nat, f: Field)
    requires Sendable(f) && At(data, offset, Encode(f))
    ensures Decode(f, data, offset) == (Ok(Seen(f)), offset + |Encode(f)|)
  {
    match f
    case I32(v) => Int32RoundTrip(data, offset, v);
    case I64(v) => Int64RoundTrip(data, offset, v);
    case Buffer(v) => BufferRoundTrip(data, offset, v);
    case Strings(v) => VectorRoundTrip(data, offset, v);
  }

  lemma FieldsUndone(data: Bytes, fs: seq<Field>)
    requires forall f :: f in fs ==> Sendable(f)
    ensures Undoes(FieldReader(fs, data), data, FieldChunks(fs), SeenAll(fs))
  {
    var read, chunks, v := FieldReader(fs, data), FieldChunks(fs), SeenAll(fs);
    forall i: nat, o: nat | i < |v| && At(data, o, chunks[i])
      ensures read(i, o) == (Ok(v[i]), o + |chunks[i]|)
    {
      FieldAt(data, fs, i, o);
      FieldRoundTrip(data, o, fs[i]);
    }
  }

  /** What stands at number `i` of the three lists that belong to a field list. */
  lemma FieldAt(data: Bytes, fs: seq<Field>, i: nat, o: nat)
    requires i < |fs|
    ensures FieldReader(fs, data)(i, o) == Decode(fs[i], data, o)
    ensures FieldChunks(fs)[i] == Encode(fs[i]) && SeenAll(fs)[i] == Seen(fs[i]) && fs[i] in fs
  {
  }

  /** Decoding an encoded field list returns the fields, nil and empty buffers identified, and
      consumes exactly their bytes, wherever the list stands in the data. */
  lemma FieldsRoundTrip(data: Bytes, offset: nat, fs: seq<Field>)
    requires forall f :: f in fs ==> Sendable(f)
    requires At(data, offset, EncodeAll(fs))
    ensures DecodeAll(fs, data, offset) == (Ok(SeenAll(fs)), offset + |EncodeAll(fs)|)
  {
    FieldsUndone(data, fs);
    ReadManyChunks(FieldReader(fs, data), data, offset, FieldChunks(fs), SeenAll(fs));
  }

  // ---- when a buffer survives ----

  /** A buffer comes back unchanged exactly when its length fits an int32; the encoder converts
      the length and does not check it. */
  lemma BufferSurvivesIff(v: Bytes, after: Bytes)
    ensures ReadBytes(EncBytes(Some(v)) + after, 0).0 == Ok(v) <==> |v| < TWO_31
  {
    var data := EncBytes(Some(v)) + after;
    assert At(data, 0, EncBytes(Some(v)));
    if |v| < TWO_31 {
      BufferRoundTrip(data, 0, Some(v));
    } else {
      var w := Wrap32(|v|);
      AtSplit(data, 0, EncInt32(w), v);
      Int32RoundTrip(data, 0, w);
      assert w < |v|;
    }
  }

  // ---- the vector limit ----

  /** The limit on vector lengths refuses no vector that a legal frame can hold: within a frame,
      reading with the limit and reading without it succeed alike, with the same strings. */
  lemma VectorLimitIsHarmless(data: Bytes, offset: nat, limit: int)
    requires offset <= |data| <= MAX_FRAME_SIZE && limit >= MAX_VECTOR
    ensures ReadVector(data, offset, MAX_VECTOR).0.Ok? == ReadVector(data, offset, limit).0.Ok?
    ensures ReadVector(data, offset, MAX_VECTOR).0.Ok? ==> ReadVector(data, offset, MAX_VECTOR) == ReadVector(data, offset, limit)
  {
    var (length, next) := ReadInt32(data, offset);
    if length.Ok? && MAX_VECTOR < length.value <= limit {
      ReadManyInside(StringReader(data), 0, length.value, next, [], |data|, 4);
    }
  }

  /** Whatever the data, decoding any field list moves the offset forward and not past the end. */
  lemma DecodeAllInside(shapes: seq<Field>, data: Bytes, offset: nat)
    requires offset <= |data|
    ensures offset <= DecodeAll(shapes, data, offset).1 <= |data|
  {
    var read := FieldReader(shapes, data);
    forall i: nat, o: nat | o <= |data|
      ensures o <= read(i, o).1 <= |data|
    {
      ReadVectorInside(data, o, MAX_VECTOR);
    }
    ReadManyInside(read, 0, |shapes|, offset, [], |data|, 0);
  }
}
