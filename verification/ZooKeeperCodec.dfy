/** The ZooKeeper wire codec (agents/drivers/hive-go/zookeeper_protocol.go): big-endian
    integers, length-prefixed buffers and string vectors, as an encoder that appends to a
    buffer and a decoder that advances an offset.  Go strings are byte sequences. */
module ZooKeeperCodec {
  import opened BigEndian
  import opened Common

  const MAX_FRAME_SIZE := 16777216

  // ---- encoding ----

  function EncInt32(v: int): Bytes {
    Put(v, 4)
  }

  function EncInt64(v: int): Bytes {
    Put(v, 8)
  }

  /** A nil buffer is -1; a length is converted to int32, so it can wrap. */
  function EncBytes(v: Option<Bytes>): Bytes {
    if v.None? then EncInt32(-1) else EncInt32(Wrap32(|v.value|)) + v.value
  }

  function Concat(chunks: seq<Bytes>): Bytes {
    if chunks == [] then [] else chunks[0] + Concat(chunks[1..])
  }

  function EncStrings(v: seq<Bytes>): Bytes {
    Concat(StringChunks(v))
  }

  function StringChunks(v: seq<Bytes>): seq<Bytes> {
    seq(|v|, i requires 0 <= i < |v| => EncBytes(Some(v[i])))
  }

  /** A vector as the server sends it: its length, then its strings. */
  function EncVector(v: seq<Bytes>): Bytes {
    EncInt32(|v|) + EncStrings(v)
  }

  class Encoder {
    var buffer: Bytes

    constructor ()
      ensures buffer == []
    {
      buffer := [];
    }

    method Int32(value: int)
      modifies this
      ensures buffer == old(buffer) + EncInt32(value)
    {
      buffer := buffer + Put(value, 4);
    }

    method Int64(value: int)
      modifies this
      ensures buffer == old(buffer) + EncInt64(value)
    {
      buffer := buffer + Put(value, 8);
    }

    method Boolean(value: bool)
      modifies this
      ensures buffer == old(buffer) + [if value then 1 else 0]
    {
      if value {
        buffer := buffer + [1];
        return;
      }
      buffer := buffer + [0];
    }

    method WriteBytes(value: Option<Bytes>)
      modifies this
      ensures buffer == old(buffer) + EncBytes(value)
    {
      if value.None? {
        Int32(-1);
        return;
      }
      Int32(Wrap32(|value.value|));
      buffer := buffer + value.value;
    }

    method WriteString(value: Bytes)
      modifies this
      ensures buffer == old(buffer) + EncBytes(Some(value))
    {
      WriteBytes(Some(value));
    }
  }

  // ---- decoding ----

  datatype DecodeError = UnexpectedEnd | BadBufferLength(length: int) | BadVectorLength(length: int)

  type Read<T> = Result<T, DecodeError>

  /** take: nothing is consumed when the data are too short. */
  function Take(data: Bytes, offset: nat, length: int): (r: (Read<Bytes>, nat))
    ensures offset <= r.1 && (offset <= |data| ==> r.1 <= |data|)
  {
    if length < 0 || offset > |data| - length then (Err(UnexpectedEnd), offset)
    else (Ok(data[offset..offset + length]), offset + length)
  }

  function ReadInt32(data: Bytes, offset: nat): (r: (Read<int>, nat))
    ensures offset <= r.1 && (offset <= |data| ==> r.1 <= |data|)
    ensures r.0.Ok? ==> -TWO_31 <= r.0.value < TWO_31 && r.1 == offset + 4 <= |data|
  {
    var (bs, next) := Take(data, offset, 4);
    if bs.Err? then (Err(bs.error), next)
    else
      GetBound(bs.value, 4);
      Widths();
      (Ok(Signed(Get(bs.value), TWO_31)), next)
  }

  function ReadInt64(data: Bytes, offset: nat): (r: (Read<int>, nat))
    ensures offset <= r.1 && (offset <= |data| ==> r.1 <= |data|)
  {
    var (bs, next) := Take(data, offset, 8);
    if bs.Err? then (Err(bs.error), next) else (Ok(Signed(Get(bs.value), TWO_63)), next)
  }

  /** A nil buffer and an empty one both come back empty. */
  function ReadBytes(data: Bytes, offset: nat): (r: (Read<Bytes>, nat))
    ensures offset <= r.1 && (offset <= |data| ==> r.1 <= |data|)
    ensures r.0.Ok? ==> offset + 4 <= r.1 <= |data|
  {
    var (length, next) := ReadInt32(data, offset);
    if length.Err? then (Err(length.error), next)
    else if length.value == -1 then (Ok([]), next)
    else if length.value < -1 then (Err(BadBufferLength(length.value)), next)
    else Take(data, next, length.value)
  }

  /** `count` more values, from number `index` on, after those in `done`; `read` reads the value
      of a given number at a given offset. */
  function ReadMany<T>(read: (nat, nat) -> (Read<T>, nat), index: nat, count: nat, offset: nat, done: seq<T>): (Read<seq<T>>, nat)
    decreases count
  {
    if count == 0 then (Ok(done), offset)
    else
      var (value, next) := read(index, offset);
      if value.Err? then (Err(value.error), next) else ReadMany(read, index + 1, count - 1, next, done + [value.value])
  }

  function StringReader(data: Bytes): (nat, nat) -> (Read<Bytes>, nat) {
    (_, offset) => ReadBytes(data, offset)
  }

  /** strings: vectors above `limit` are refused before any string is read. */
  function ReadVector(data: Bytes, offset: nat, limit: int): (Read<seq<Bytes>>, nat) {
    var (length, next) := ReadInt32(data, offset);
    if length.Err? then (Err(length.error), next)
    else if length.value == -1 then (Ok([]), next)
    else if length.value < -1 || length.value > limit then (Err(BadVectorLength(length.value)), next)
    else ReadMany(StringReader(data), 0, length.value, next, [])
  }

  /** A reader that never goes back nor passes `end`, and consumes at least `least` bytes per
      value, does so for many values. */
  lemma {:induction false} ReadManyInside<T>(read: (nat, nat) -> (Read<T>, nat), index: nat, count: nat, offset: nat, done: seq<T>,
                                             end: nat, least: nat)
    requires offset <= end
    requires forall i: nat, o: nat :: o <= end ==> o <= read(i, o).1 <= end && (read(i, o).0.Ok? ==> o + least <= read(i, o).1)
    ensures var r := ReadMany(read, index, count, offset, done);
            offset <= r.1 <= end && (r.0.Ok? && least == 4 ==> offset + 4 * count <= r.1)
    decreases count
  {
    if count > 0 {
      var (value, next) := read(index, offset);
      if value.Ok? {
        ReadManyInside(read, index + 1, count - 1, next, done + [value.value], end, least);
      }
    }
  }

  lemma ReadVectorInside(data: Bytes, offset: nat, limit: int)
    requires offset <= |data|
    ensures offset <= ReadVector(data, offset, limit).1 <= |data|
  {
    var (length, next) := ReadInt32(data, offset);
    if length.Ok? && 0 <= length.value <= limit {
      ReadManyInside(StringReader(data), 0, length.value, next, [], |data|, 4);
    }
  }

  const MAX_VECTOR := MAX_FRAME_SIZE / 4

  class Decoder {
    const data: Bytes
    var offset: nat

    ghost predicate Valid()
      reads this
    {
      offset <= |data|
    }

    constructor (data: Bytes)
      ensures Valid() && this.data == data && offset == 0
    {
      this.data := data;
      offset := 0;
    }

    method TakeBytes(length: int) returns (value: Read<Bytes>)
      requires Valid()
      modifies this
      ensures Valid() && (value, offset) == Take(data, old(offset), length)
    {
      if length < 0 || offset > |data| - length {
        return Err(UnexpectedEnd);
      }
      value := Ok(data[offset..offset + length]);
      offset := offset + length;
    }

    method Int32() returns (value: Read<int>)
      requires Valid()
      modifies this
      ensures Valid() && (value, offset) == ReadInt32(data, old(offset))
    {
      var bs := TakeBytes(4);
      if bs.Err? {
        return Err(bs.error);
      }
      value := Ok(Signed(Get(bs.value), TWO_31));
    }

    method Int64() returns (value: Read<int>)
      requires Valid()
      modifies this
      ensures Valid() && (value, offset) == ReadInt64(data, old(offset))
    {
      var bs := TakeBytes(8);
      if bs.Err? {
        return Err(bs.error);
      }
      value := Ok(Signed(Get(bs.value), TWO_63));
    }

    method ReadBuffer() returns (value: Read<Bytes>)
      requires Valid()
      modifies this
      ensures Valid() && (value, offset) == ReadBytes(data, old(offset))
    {
      var length := Int32();
      if length.Err? {
        return Err(length.error);
      }
      if length.value == -1 {
        return Ok([]);
      }
      if length.value < -1 {
        return Err(BadBufferLength(length.value));
      }
      value := TakeBytes(length.value);
    }

    method Strings() returns (values: Read<seq<Bytes>>)
      requires Valid()
      modifies this
      ensures Valid() && (values, offset) == ReadVector(data, old(offset), MAX_VECTOR)
    {
      var length := Int32();
      if length.Err? {
        return Err(length.error);
      }
      if length.value == -1 {
        return Ok([]);
      }
      if length.value < -1 || length.value > MAX_VECTOR {
        return Err(BadVectorLength(length.value));
      }
      var done: seq<Bytes> := [];
      for index := 0 to length.value
        invariant Valid()
        invariant ReadMany(StringReader(data), index, length.value - index, offset, done) == ReadVector(data, old(offset), MAX_VECTOR)
      {
        var value := ReadBuffer();
        if value.Err? {
          return Err(value.error);
        }
        done := done + [value.value];
      }
      values := Ok(done);
    }

    method Remaining() returns (rest: Bytes)
      requires Valid()
      ensures rest == data[offset..]
    {
      rest := data[offset..];
    }
  }
}
