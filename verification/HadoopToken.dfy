/** Hadoop delegation tokens (agents/drivers/hive-go/config.go): variable-length integers, length-prefixed
    byte arrays, and a token of four of them. Tokens are taken after base64. */
module HadoopToken {
  import opened BigEndian
  import opened Common

  const MAX_ARRAY := 64 * 1024 * 1024

  datatype Fault = Eof | NegativeLength | TooLong | EmptyPart | TrailingData

  // ---- what the bytes mean ----

  /** The Go conversion of an integer to int64. */
  function Wrap64(v: int): (w: int)
    ensures -TWO_63 <= w < TWO_63
  {
    Signed(v % (2 * TWO_63), TWO_63)
  }

  /** How many bytes follow the first byte of an integer. */
  function Width(first: Byte): (w: nat)
    ensures w <= 8
  {
    var s := Signed(first, 128);
    if s >= -112 then 0 else if s >= -120 then -112 - s else -120 - s
  }

  /** The integer of a first byte and the bytes that follow it. */
  function ValueOf(first: Byte, rest: Bytes): int {
    var s := Signed(first, 128);
    if s >= -112 then s else if s >= -120 then Wrap64(Get(rest)) else -Wrap64(Get(rest)) - 1
  }

  /** The bytes spell the integer, in the shortest way or not. */
  predicate Spells(bs: Bytes, v: int) {
    bs != [] && |bs| == 1 + Width(bs[0]) && v == ValueOf(bs[0], bs[1..])
  }

  /** The bytes are a length and that many bytes, which are the array. */
  ghost predicate IsArray(frame: Bytes, bs: Bytes) {
    exists head: Bytes :: frame == head + bs && Spells(head, |bs|) && |bs| <= MAX_ARRAY
  }

  // ---- reading ----

  /** A reader over a decoded token. */
  class Reader {
    const data: Bytes
    var offset: nat

    constructor (data: Bytes)
      ensures this.data == data && offset == 0
    {
      this.data, offset := data, 0;
    }

    ghost predicate Valid()
      reads this
    {
      offset <= |data|
    }

    method ReadByte() returns (r: Result<Byte, Fault>)
      requires Valid()
      modifies this
      ensures Valid()
      ensures if old(offset) < |data| then r == Ok(data[old(offset)]) && offset == old(offset) + 1
              else r == Err(Eof) && offset == old(offset)
    {
      if offset == |data| {
        return Err(Eof);
      }
      r := Ok(data[offset]);
      offset := offset + 1;
    }

    /** readHadoopVInt */
    method ReadVInt() returns (r: Result<int, Fault>)
      requires Valid()
      modifies this
      ensures Valid()
      ensures match VIntAt(data, old(offset))
        case Some((v, end)) => r == Ok(v) && offset == end
        case None => r == Err(Eof)
    {
      ghost var start := offset;
      var firstByte := ReadByte();
      if firstByte.Err? {
        return Err(firstByte.error);
      }
      var first := Signed(firstByte.value, 128);
      if first >= -112 {
        return Ok(first);
      }
      var length := -111 - first;
      var negative := false;
      if first < -120 {
        length := -119 - first;
        negative := true;
      }
      ghost var rest := data[start + 1..];
      var value := 0;
      for index := 0 to length - 1
        invariant Valid() && offset == start + 1 + index && value == Wrap64(GetFirst(rest, index))
      {
        var current := ReadByte();
        if current.Err? {
          return Err(current.error);
        }
        assert current.value == rest[index];
        WrapStep(GetFirst(rest, index), current.value);
        value := Wrap64(value * 256 + current.value);
      }
      GetFirstOfPrefix(rest, rest[..length - 1], length - 1);
      assert rest[..length - 1] == data[start + 1..start + length];
      if negative {
        value := -value - 1;
      }
      return Ok(value);
    }

    /** readHadoopByteArray */
    method ReadByteArray() returns (r: Result<Bytes, Fault>)
      requires Valid()
      modifies this
      ensures Valid()
      ensures match ArrayAt(data, old(offset))
        case Ok((bs, end)) => r == Ok(bs) && offset == end
        case Err(fault) => r == Err(fault)
    {
      var length := ReadVInt();
      if length.Err? {
        return Err(length.error);
      }
      if length.value < 0 {
        return Err(NegativeLength);
      }
      if length.value > MAX_ARRAY {
        return Err(TooLong);
      }
      if offset + length.value > |data| {
        return Err(Eof);
      }
      r := Ok(data[offset..offset + length.value]);
      offset := offset + length.value;
    }
  }

  /** decodeHadoopDelegationToken, after base64. */
  method DecodeToken(data: Bytes) returns (r: Result<(Bytes, Bytes), Fault>)
    ensures r == TokenOf(data)
  {
    var reader := new Reader(data);
    var identifier := reader.ReadByteArray();
    if identifier.Err? {
      return Err(identifier.error);
    }
    var password := reader.ReadByteArray();
    if password.Err? {
      return Err(password.error);
    }
    if identifier.value == [] || password.value == [] {
      return Err(EmptyPart);
    }
    var kind := reader.ReadByteArray();
    if kind.Err? {
      return Err(kind.error);
    }
    var service := reader.ReadByteArray();
    if service.Err? {
      return Err(service.error);
    }
    if reader.offset != |data| {
      return Err(TrailingData);
    }
    return Ok((identifier.value, password.value));
  }

  /** Wrapping does not see multiples of 2^64. */
  lemma WrapShift(x: int, k: int)
    ensures Wrap64(x - k * (2 * TWO_63)) == Wrap64(x)
  {
    var m := 2 * TWO_63;
    var y := x - k * m;
    assert x == m * (x / m) + x % m;
    assert y == m * (x / m - k) + x % m;
    assert y / m == x / m - k;
  }

  lemma WrapStep(x: int, b: Byte)
    ensures Wrap64(Wrap64(x) * 256 + b) == Wrap64(x * 256 + b)
  {
    var m := 2 * TWO_63;
    var k := if x % m < TWO_63 then x / m else x / m + 1;
    assert Wrap64(x) == x - k * m;
    WrapShift(x * 256 + b, 256 * k);
  }

  lemma {:induction false} GetFirstOfPrefix(a: Bytes, b: Bytes, n: nat)
    requires n <= |a| && n <= |b| && forall i :: 0 <= i < n ==> a[i] == b[i]
    ensures GetFirst(a, n) == GetFirst(b, n)
    decreases n
  {
    if n > 0 {
      GetFirstOfPrefix(a, b, n - 1);
    }
  }

  /** The integer at a position and where it ends, if it is all there. */
  function VIntAt(data: Bytes, pos: nat): (r: Option<(int, nat)>)
    requires pos <= |data|
    ensures r.Some? ==> pos < r.value.1 <= |data|
  {
    if pos == |data| || pos + 1 + Width(data[pos]) > |data| then None
    else
      var end := pos + 1 + Width(data[pos]);
      Some((ValueOf(data[pos], data[pos + 1..end]), end))
  }

  /** The array at a position and where it ends. */
  function ArrayAt(data: Bytes, pos: nat): (r: Result<(Bytes, nat), Fault>)
    requires pos <= |data|
    ensures r.Ok? ==> pos < r.value.1 <= |data|
  {
    match VIntAt(data, pos)
    case None => Err(Eof)
    case Some((length, p)) =>
      if length < 0 then Err(NegativeLength)
      else if length > MAX_ARRAY then Err(TooLong)
      else if p + length > |data| then Err(Eof)
      else Ok((data[p..p + length], p + length))
  }

  function TokenOf(data: Bytes): Result<(Bytes, Bytes), Fault> {
    match ArrayAt(data, 0)
    case Err(fault) => Err(fault)
    case Ok((identifier, p1)) =>
      match ArrayAt(data, p1)
      case Err(fault) => Err(fault)
      case Ok((password, p2)) =>
        if identifier == [] || password == [] then Err(EmptyPart)
        else
          match ArrayAt(data, p2)
          case Err(fault) => Err(fault)
          case Ok((_, p3)) =>
            match ArrayAt(data, p3)
            case Err(fault) => Err(fault)
            case Ok((_, p4)) => if p4 != |data| then Err(TrailingData) else Ok((identifier, password))
  }

  // ---- the reader finds exactly what is spelled ----

  lemma VIntAtIff(data: Bytes, pos: nat, v: int, end: nat)
    requires pos <= |data|
    ensures VIntAt(data, pos) == Some((v, end)) <==> pos <= end <= |data| && Spells(data[pos..end], v)
  {
    if pos <= end <= |data| && pos < |data| && end == pos + 1 + Width(data[pos]) {
      assert data[pos..end][1..] == data[pos + 1..end];
    }
  }

  lemma ArrayAtIff(data: Bytes, pos: nat, bs: Bytes, end: nat)
    requires pos <= |data|
    ensures ArrayAt(data, pos) == Ok((bs, end)) <==> pos <= end <= |data| && IsArray(data[pos..end], bs)
  {
    if ArrayAt(data, pos) == Ok((bs, end)) {
      var (length, p) := VIntAt(data, pos).value;
      VIntAtIff(data, pos, length, p);
      assert data[pos..end] == data[pos..p] + bs;
    }
    if pos <= end <= |data| && IsArray(data[pos..end], bs) {
      var head: Bytes :| data[pos..end] == head + bs && Spells(head, |bs|) && |bs| <= MAX_ARRAY;
      var p := pos + |head|;
      assert data[pos..p] == data[pos..end][..|head|] == head;
      VIntAtIff(data, pos, |bs|, p);
      assert data[p..end] == data[pos..end][|head|..] == bs;
    }
  }

  /** Where an integer stands, it decides: a negative one, one above 64 MiB, and one that the data do not suffice for are
      told apart. */
  lemma ArrayOutcome(data: Bytes, pos: nat, v: int, p: nat)
    requires pos <= p <= |data| && Spells(data[pos..p], v)
    ensures ArrayAt(data, pos) ==
            if v < 0 then Err(NegativeLength)
            else if v > 67108864 then Err(TooLong)
            else if p + v > |data| then Err(Eof)
            else Ok((data[p..p + v], p + v))
  {
    VIntAtIff(data, pos, v, p);
  }

  /** And where none does, the data end too early. */
  lemma ArrayMissing(data: Bytes, pos: nat)
    requires pos <= |data|
    ensures (forall v: int, p: nat :: pos <= p <= |data| ==> !Spells(data[pos..p], v)) <==> VIntAt(data, pos).None?
    ensures VIntAt(data, pos).None? ==> ArrayAt(data, pos) == Err(Eof)
  {
    if VIntAt(data, pos).Some? {
      var (v, p) := VIntAt(data, pos).value;
      VIntAtIff(data, pos, v, p);
      assert Spells(data[pos..p], v);
    } else {
      forall v: int, p: nat | pos <= p <= |data|
        ensures !Spells(data[pos..p], v)
      {
        VIntAtIff(data, pos, v, p);
      }
    }
  }

  /** Two arrays stand in front of the data, and an empty one among them is the fault, whatever follows. */
  lemma EmptyPartIff(data: Bytes, a: Bytes, b: Bytes, cut: nat, end: nat)
    requires cut <= end <= |data| && IsArray(data[..cut], a) && IsArray(data[cut..end], b)
    ensures TokenOf(data) == Err(EmptyPart) <==> a == [] || b == []
  {
    assert data[0..cut] == data[..cut];
    ArrayAtIff(data, 0, a, cut);
    ArrayAtIff(data, cut, b, end);
    FaultsOfArrays(data, end);
  }

  lemma FaultsOfArrays(data: Bytes, pos: nat)
    requires pos <= |data|
    ensures ArrayAt(data, pos).Err? ==> ArrayAt(data, pos).error in {Eof, NegativeLength, TooLong}
    ensures ArrayAt(data, pos).Ok? ==> var q := ArrayAt(data, pos).value.1;
      ArrayAt(data, q).Err? ==> ArrayAt(data, q).error in {Eof, NegativeLength, TooLong}
  {
  }

  /** Four arrays that are followed by more are no token. */
  lemma TrailingDataIff(data: Bytes, end: nat, a: Bytes, b: Bytes, c: Bytes, d: Bytes, cuts: (nat, nat, nat))
    requires end <= |data| && FourArrays(data[..end], a, b, c, d, cuts) && a != [] && b != []
    ensures TokenOf(data) == if end < |data| then Err(TrailingData) else Ok((a, b))
  {
    var front := data[..end];
    assert data[0..cuts.0] == front[..cuts.0] && data[cuts.0..cuts.1] == front[cuts.0..cuts.1];
    assert data[cuts.1..cuts.2] == front[cuts.1..cuts.2] && data[cuts.2..end] == front[cuts.2..];
    ArrayAtIff(data, 0, a, cuts.0);
    ArrayAtIff(data, cuts.0, b, cuts.1);
    ArrayAtIff(data, cuts.1, c, cuts.2);
    ArrayAtIff(data, cuts.2, d, end);
  }

  /** Four arrays fill the data. */
  ghost predicate FourArrays(data: Bytes, a: Bytes, b: Bytes, c: Bytes, d: Bytes, cuts: (nat, nat, nat)) {
    && cuts.0 <= cuts.1 <= cuts.2 <= |data|
    && IsArray(data[..cuts.0], a) && IsArray(data[cuts.0..cuts.1], b)
    && IsArray(data[cuts.1..cuts.2], c) && IsArray(data[cuts.2..], d)
  }

  /** A token is accepted only if four arrays fill it exactly, and then the first two, which must not be empty,
      are what it gives. */
  lemma TokenIsFourArrays(data: Bytes) returns (kind: Bytes, service: Bytes, cuts: (nat, nat, nat))
    requires TokenOf(data).Ok?
    ensures var (identifier, password) := TokenOf(data).value;
      identifier != [] && password != [] && FourArrays(data, identifier, password, kind, service, cuts)
  {
    var (identifier, p1) := ArrayAt(data, 0).value;
    var (password, p2) := ArrayAt(data, p1).value;
    var (k, p3) := ArrayAt(data, p2).value;
    var (s, p4) := ArrayAt(data, p3).value;
    kind, service, cuts := k, s, (p1, p2, p3);
    ArrayAtIff(data, 0, identifier, p1);
    ArrayAtIff(data, p1, password, p2);
    ArrayAtIff(data, p2, kind, p3);
    ArrayAtIff(data, p3, service, p4);
    assert data[0..p1] == data[..p1] && data[p3..p4] == data[p3..];
  }

  /** And every such token is accepted. */
  lemma FourArraysAreAToken(
    data: Bytes, identifier: Bytes, password: Bytes, kind: Bytes, service: Bytes, cuts: (nat, nat, nat))
    requires FourArrays(data, identifier, password, kind, service, cuts) && identifier != [] && password != []
    ensures TokenOf(data) == Ok((identifier, password))
  {
    assert data[0..cuts.0] == data[..cuts.0] && data[cuts.2..|data|] == data[cuts.2..];
    ArrayAtIff(data, 0, identifier, cuts.0);
    ArrayAtIff(data, cuts.0, password, cuts.1);
    ArrayAtIff(data, cuts.1, kind, cuts.2);
    ArrayAtIff(data, cuts.2, service, |data|);
  }

  // ---- what Hadoop writes ----

  function ByteCount(m: nat): nat {
    if m == 0 then 0 else 1 + ByteCount(m / 256)
  }

  /** The bytes of WritableUtils.writeVLong. */
  function EncodeVLong(v: int): Bytes
    requires -TWO_63 <= v < TWO_63
  {
    if -112 <= v <= 127 then [v % 256]
    else
      var m := if v < 0 then -v - 1 else v;
      var k := ByteCount(m);
      CountBounds(m, 8);
      [((if v < 0 then -120 else -112) - k) % 256] + Put(m, k)
  }

  function EncodeArray(bs: Bytes): Bytes
    requires |bs| <= MAX_ARRAY
  {
    EncodeVLong(|bs|) + bs
  }

  lemma {:induction false} CountBounds(m: nat, n: nat)
    ensures m < Pow256(ByteCount(m))
    ensures m < Pow256(n) ==> ByteCount(m) <= n
    decreases m
  {
    if m > 0 {
      CountBounds(m / 256, if n > 0 then n - 1 else 0);
    }
  }

  lemma MarkerRead(k: nat, negative: bool, rest: Bytes, m: nat)
    requires 1 <= k <= 8 && Get(rest) == m < TWO_63
    ensures var first := ((if negative then -120 else -112) - k) % 256;
      Width(first) == k && ValueOf(first, rest) == if negative then 0 - m - 1 else m as int
  {
    var first := ((if negative then -120 else -112) - k) % 256;
    assert Signed(first, 128) == (if negative then -120 else -112) - k;
    assert Wrap64(m) == m;
  }

  /** Reading inverts Hadoop's encoding for every 64-bit integer. */
  lemma VLongRoundTrip(v: int)
    requires -TWO_63 <= v < TWO_63
    ensures Spells(EncodeVLong(v), v)
  {
    if !(-112 <= v <= 127) {
      var m := if v < 0 then -v - 1 else v;
      var k := ByteCount(m);
      Widths();
      CountBounds(m, 8);
      GetPut(m, k);
      assert EncodeVLong(v)[1..] == Put(m, k);
      MarkerRead(k, v < 0, Put(m, k), m);
    }
  }

  /** So readHadoopVInt inverts the encoding, whatever follows it, and consumes exactly its bytes. */
  lemma VIntInvertsVLong(v: int, after: Bytes)
    requires -TWO_63 <= v < TWO_63
    ensures VIntAt(EncodeVLong(v) + after, 0) == Some((v, |EncodeVLong(v)|))
  {
    var data := EncodeVLong(v) + after;
    VLongRoundTrip(v);
    assert data[0..|EncodeVLong(v)|] == EncodeVLong(v);
    VIntAtIff(data, 0, v, |EncodeVLong(v)|);
  }

  /** A token as Hadoop writes it comes back. */
  lemma TokenRoundTrip(identifier: Bytes, password: Bytes, kind: Bytes, service: Bytes)
    requires 0 < |identifier| <= MAX_ARRAY && 0 < |password| <= MAX_ARRAY && |kind| <= MAX_ARRAY && |service| <= MAX_ARRAY
    ensures TokenOf(EncodeArray(identifier) + EncodeArray(password) + EncodeArray(kind) + EncodeArray(service))
         == Ok((identifier, password))
  {
    var a, b, c, d := EncodeArray(identifier), EncodeArray(password), EncodeArray(kind), EncodeArray(service);
    var data := a + b + c + d;
    var cuts := (|a|, |a| + |b|, |a| + |b| + |c|);
    assert data[..cuts.0] == a && data[cuts.0..cuts.1] == b && data[cuts.1..cuts.2] == c && data[cuts.2..] == d;
    EncodedIsArray(identifier);
    EncodedIsArray(password);
    EncodedIsArray(kind);
    EncodedIsArray(service);
    FourArraysAreAToken(data, identifier, password, kind, service, cuts);
  }

  lemma EncodedIsArray(bs: Bytes)
    requires |bs| <= MAX_ARRAY
    ensures IsArray(EncodeArray(bs), bs)
  {
    VLongRoundTrip(|bs|);
  }
}
