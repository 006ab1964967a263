/** The printed text of a CQL type determines the type. */
module CqlReadability {
  import opened Common
  import opened CqlTypes
  import opened CqlParser

  // ---- the parts of a printed composite stand where the reader looks for them ----

  lemma OnePart(s: string, pos: nat, head: string, inner: string)
    requires At(s, pos, head + inner + ">")
    ensures At(s, pos, head) && At(s, pos + |head|, inner)
    ensures var end := pos + |head| + |inner|; Closes(s, end) && Stops(s, end)
  {
    AtSplit(s, pos, head + inner, ">");
    AtSplit(s, pos, head, inner);
    AtIndex(s, pos + |head| + |inner|, ">", 0);
  }

  lemma CommaPart(s: string, pos: nat, left: string, right: string)
    requires At(s, pos, left + ", " + right)
    ensures At(s, pos, left) && At(s, pos + |left| + 2, right)
    ensures Separates(s, pos + |left|) && Stops(s, pos + |left|)
  {
    AtSplit(s, pos, left + ", ", right);
    AtSplit(s, pos, left, ", ");
    AtIndex(s, pos + |left|, ", ", 0);
    AtIndex(s, pos + |left|, ", ", 1);
  }

  lemma TwoParts(s: string, pos: nat, head: string, left: string, right: string)
    requires At(s, pos, head + left + ", " + right + ">")
    ensures var p := pos + |head| + |left|;
      && At(s, pos, head) && At(s, pos + |head|, left) && Separates(s, p) && Stops(s, p)
      && At(s, p + 2, right) && Closes(s, p + 2 + |right|) && Stops(s, p + 2 + |right|)
  {
    assert head + left + ", " + right + ">" == head + (left + ", " + right) + ">";
    OnePart(s, pos, head, left + ", " + right);
    CommaPart(s, pos + |head|, left, right);
  }

  lemma VectorParts(s: string, pos: nat, head: string, left: string, dimensions: int)
    requires At(s, pos, head + left + ", " + IntText(dimensions) + ">")
    ensures var p := pos + |head| + |left|;
      var end := p + 2 + |IntText(dimensions)|;
      && At(s, pos, head) && At(s, pos + |head|, left) && Separates(s, p)
      && ReadInt(s, p + 2) == Some((dimensions, end)) && Closes(s, end)
  {
    TwoParts(s, pos, head, left, IntText(dimensions));
    IntRoundTrip(s, pos + |head| + |left| + 2, dimensions);
  }

  // ---- the reader puts them together ----

  function SingleKind(head: Head): Kind {
    if head.ListHead? then ListKind else SetKind
  }

  lemma SingleRead(v: Vocabulary, w: Words, s: string, pos: nat, head: Head, t: TypeInfo, end: nat)
    requires Fits(v, w) && (head.ListHead? || head.SetHead?) && At(s, pos, Open(w, head))
    requires Parse(v, s, pos + |Open(w, head)|) == Got(t, end) && Closes(s, end)
    ensures pos < |s| && Parse(v, s, pos) == Got(Collection(SingleKind(head), Nil, t), end + 1)
  {
    CompositeRead(v, w, s, pos, head);
  }

  lemma MapRead(v: Vocabulary, w: Words, s: string, pos: nat, key: TypeInfo, mid: nat, elem: TypeInfo, end: nat)
    requires Fits(v, w) && At(s, pos, Open(w, MapHead)) && Separates(s, mid) && Closes(s, end)
    requires Parse(v, s, pos + |Open(w, MapHead)|) == Got(key, mid) && Parse(v, s, mid + 2) == Got(elem, end)
    ensures pos < |s| && Parse(v, s, pos) == Got(Collection(MapKind, key, elem), end + 1)
  {
    MapFinished(v, s, key, mid, elem, end);
    CompositeRead(v, w, s, pos, MapHead);
  }

  lemma MapFinished(v: Vocabulary, s: string, key: TypeInfo, mid: nat, elem: TypeInfo, end: nat)
    requires Separates(s, mid) && Parse(v, s, mid + 2) == Got(elem, end) && Closes(s, end)
    ensures FinishMap(v, s, key, mid) == Got(Collection(MapKind, key, elem), end + 1)
  {
  }

  lemma VectorRead(v: Vocabulary, w: Words, s: string, pos: nat, sub: TypeInfo, mid: nat, dimensions: int, end: nat)
    requires Fits(v, w) && At(s, pos, Open(w, VectorHead)) && Separates(s, mid) && Closes(s, end)
    requires Parse(v, s, pos + |Open(w, VectorHead)|) == Got(sub, mid) && ReadInt(s, mid + 2) == Some((dimensions, end))
    ensures pos < |s| && Parse(v, s, pos) == Got(Vector(sub, dimensions), end + 1)
  {
    assert FinishVector(s, sub, mid) == Got(Vector(sub, dimensions), end + 1);
    CompositeRead(v, w, s, pos, VectorHead);
  }

  lemma TupleRead(v: Vocabulary, w: Words, s: string, pos: nat, elems: seq<TypeInfo>, end: nat)
    requires Fits(v, w) && At(s, pos, Open(w, TupleHead)) && Closes(s, end)
    requires var start := pos + |Open(w, TupleHead)|;
      if elems == [] then end == start else ParseElems(v, s, start) == GotAll(elems, end) && !Closes(s, start)
    ensures pos < |s| && Parse(v, s, pos) == Got(Tuple(elems), end + 1)
  {
    CompositeRead(v, w, s, pos, TupleHead);
  }

  lemma LastRead(v: Vocabulary, s: string, pos: nat, t: TypeInfo, end: nat)
    requires pos <= |s| && Parse(v, s, pos) == Got(t, end) && Closes(s, end)
    ensures ParseElems(v, s, pos) == GotAll([t], end) && !Closes(s, pos)
  {
  }

  lemma NextRead(v: Vocabulary, s: string, pos: nat, t: TypeInfo, mid: nat, ts: seq<TypeInfo>, end: nat)
    requires pos <= |s| && Parse(v, s, pos) == Got(t, mid) && Separates(s, mid)
    requires ParseElems(v, s, mid + 2) == GotAll(ts, end)
    ensures ParseElems(v, s, pos) == GotAll([t] + ts, end) && !Closes(s, pos)
  {
  }

  // ---- reading back ----

  lemma ReadSingle(v: Vocabulary, w: Words, s: string, pos: nat, head: Head, elem: TypeInfo, start: nat, end: nat)
    requires Fits(v, w) && (head.ListHead? || head.SetHead?) && At(s, pos, Open(w, head) + Print(w, elem) + ">")
    requires start == pos + |Open(w, head)| && end == start + |Print(w, elem)|
    ensures pos < |s| && Parse(v, s, pos) == Got(Collection(SingleKind(head), Nil, Canonical(elem)), end + 1)
    decreases elem, 2
  {
    OnePart(s, pos, Open(w, head), Print(w, elem));
    ReadBack(v, w, s, start, elem);
    SingleRead(v, w, s, pos, head, Canonical(elem), end);
  }

  lemma ReadMap(
    v: Vocabulary, w: Words, s: string, pos: nat, key: TypeInfo, elem: TypeInfo, t: TypeInfo, start: nat, mid: nat, end: nat)
    requires Fits(v, w) && key < t && elem < t
    requires At(s, pos, Open(w, MapHead)) && start == pos + |Open(w, MapHead)|
    requires At(s, start, Print(w, key)) && mid == start + |Print(w, key)| && Separates(s, mid)
    requires At(s, mid + 2, Print(w, elem)) && end == mid + 2 + |Print(w, elem)| && Closes(s, end)
    ensures pos < |s| && Parse(v, s, pos) == Got(Collection(MapKind, Canonical(key), Canonical(elem)), end + 1)
    decreases t, 0, 0
  {
    ReadBack(v, w, s, start, key);
    ReadBack(v, w, s, mid + 2, elem);
    MapRead(v, w, s, pos, Canonical(key), mid, Canonical(elem), end);
  }

  lemma ReadVector(
    v: Vocabulary, w: Words, s: string, pos: nat, sub: TypeInfo, dimensions: int, start: nat, mid: nat, end: nat)
    requires Fits(v, w) && At(s, pos, Open(w, VectorHead)) && start == pos + |Open(w, VectorHead)|
    requires At(s, start, Print(w, sub)) && mid == start + |Print(w, sub)| && Separates(s, mid)
    requires ReadInt(s, mid + 2) == Some((dimensions, end)) && Closes(s, end)
    ensures pos < |s| && Parse(v, s, pos) == Got(Vector(Canonical(sub), dimensions), end + 1)
    decreases sub, 2
  {
    ReadBack(v, w, s, start, sub);
    VectorRead(v, w, s, pos, Canonical(sub), mid, dimensions, end);
  }

  lemma ReadMapText(
    v: Vocabulary, w: Words, s: string, pos: nat, key: TypeInfo, elem: TypeInfo, t: TypeInfo, end: nat)
    requires Fits(v, w) && key < t && elem < t
    requires At(s, pos, Open(w, MapHead) + Print(w, key) + ", " + Print(w, elem) + ">")
    requires end == pos + |Open(w, MapHead)| + |Print(w, key)| + 2 + |Print(w, elem)| + 1
    ensures pos < |s| && Parse(v, s, pos) == Got(Collection(MapKind, Canonical(key), Canonical(elem)), end)
    decreases t, 0, 1
  {
    var head, left, right := Open(w, MapHead), Print(w, key), Print(w, elem);
    TwoParts(s, pos, head, left, right);
    ReadMap(v, w, s, pos, key, elem, t, pos + |head|, pos + |head| + |left|, end - 1);
  }

  lemma ReadVectorText(v: Vocabulary, w: Words, s: string, pos: nat, sub: TypeInfo, dimensions: int, end: nat)
    requires Fits(v, w) && At(s, pos, Open(w, VectorHead) + Print(w, sub) + ", " + IntText(dimensions) + ">")
    requires end == pos + |Open(w, VectorHead)| + |Print(w, sub)| + 2 + |IntText(dimensions)| + 1
    ensures pos < |s| && Parse(v, s, pos) == Got(Vector(Canonical(sub), dimensions), end)
    decreases sub, 3
  {
    var head, left := Open(w, VectorHead), Print(w, sub);
    VectorParts(s, pos, head, left, dimensions);
    ReadVector(v, w, s, pos, sub, dimensions, pos + |head|, pos + |head| + |left|, end - 1);
  }

  lemma ReadTuple(v: Vocabulary, w: Words, s: string, pos: nat, elems: seq<TypeInfo>, end: nat)
    requires Fits(v, w) && At(s, pos, Open(w, TupleHead) + PrintAll(w, elems) + ">")
    requires end == pos + |Open(w, TupleHead)| + |PrintAll(w, elems)| + 1
    ensures pos < |s| && Parse(v, s, pos) == Got(Tuple(CanonicalAll(elems)), end)
    decreases elems, 2
  {
    OnePart(s, pos, Open(w, TupleHead), PrintAll(w, elems));
    if elems != [] {
      ReadElems(v, w, s, pos + |Open(w, TupleHead)|, elems, end - 1);
    }
    TupleRead(v, w, s, pos, CanonicalAll(elems), end - 1);
  }

  lemma {:induction false} ReadElems(v: Vocabulary, w: Words, s: string, pos: nat, ts: seq<TypeInfo>, end: nat)
    requires Fits(v, w) && ts != [] && At(s, pos, PrintAll(w, ts)) && end == pos + |PrintAll(w, ts)| && Closes(s, end)
    ensures ParseElems(v, s, pos) == GotAll(CanonicalAll(ts), end) && !Closes(s, pos)
    decreases ts, 1
  {
    if |ts| == 1 {
      ReadLast(v, w, s, pos, ts, end);
    } else {
      var mid := pos + |Print(w, ts[0])|;
      CommaPart(s, pos, Print(w, ts[0]), PrintAll(w, ts[1..]));
      ReadElems(v, w, s, mid + 2, ts[1..], end);
      ReadNext(v, w, s, pos, ts, mid, end);
    }
  }

  lemma ReadLast(v: Vocabulary, w: Words, s: string, pos: nat, ts: seq<TypeInfo>, end: nat)
    requires Fits(v, w) && |ts| == 1 && At(s, pos, Print(w, ts[0])) && end == pos + |Print(w, ts[0])| && Closes(s, end)
    ensures ParseElems(v, s, pos) == GotAll(CanonicalAll(ts), end) && !Closes(s, pos)
    decreases ts, 0
  {
    ReadBack(v, w, s, pos, ts[0]);
    LastRead(v, s, pos, Canonical(ts[0]), end);
    assert CanonicalAll(ts) == [Canonical(ts[0])];
  }

  lemma ReadNext(v: Vocabulary, w: Words, s: string, pos: nat, ts: seq<TypeInfo>, mid: nat, end: nat)
    requires Fits(v, w) && |ts| > 1 && At(s, pos, Print(w, ts[0])) && mid == pos + |Print(w, ts[0])| && Separates(s, mid)
    requires ParseElems(v, s, mid + 2) == GotAll(CanonicalAll(ts[1..]), end)
    ensures ParseElems(v, s, pos) == GotAll(CanonicalAll(ts), end) && !Closes(s, pos)
    decreases ts, 0
  {
    ReadBack(v, w, s, pos, ts[0]);
    NextRead(v, s, pos, Canonical(ts[0]), mid, CanonicalAll(ts[1..]), end);
  }

  lemma ReadCollection(v: Vocabulary, w: Words, s: string, pos: nat, kind: Kind, key: TypeInfo, elem: TypeInfo, t: TypeInfo)
    requires t == Collection(kind, key, elem)
    requires Fits(v, w) && At(s, pos, Print(w, t)) && Stops(s, pos + |Print(w, t)|)
    ensures Parse(v, s, pos) == Got(Canonical(t), pos + |Print(w, t)|)
    decreases t, 0, 2
  {
    if kind.MapKind? {
      ReadMapText(v, w, s, pos, key, elem, t, pos + |Print(w, t)|);
    } else if kind.ListKind? || kind.SetKind? {
      var head := if kind.ListKind? then ListHead else SetHead;
      var start := pos + |Open(w, head)|;
      ReadSingle(v, w, s, pos, head, elem, start, start + |Print(w, elem)|);
    } else {
      NamedRoundTrip(v, w, s, pos, kind);
    }
  }

  /** Wherever a printed type stands in a text, the reader finds it and where it ends. */
  lemma {:induction false} ReadBack(v: Vocabulary, w: Words, s: string, pos: nat, t: TypeInfo)
    requires Fits(v, w) && At(s, pos, Print(w, t)) && Stops(s, pos + |Print(w, t)|)
    ensures Parse(v, s, pos) == Got(Canonical(t), pos + |Print(w, t)|)
    decreases t, 1
  {
    match t
    case Nil => NamedRoundTrip(v, w, s, pos, Unmapped(0));
    case Native(kind) => NamedRoundTrip(v, w, s, pos, kind);
    case Collection(kind, key, elem) => ReadCollection(v, w, s, pos, kind, key, elem, t);
    case Tuple(elems) => ReadTuple(v, w, s, pos, elems, pos + |Print(w, t)|);
    case Udt(_, name) => ReadUdt(v, s, pos, name);
    case Vector(sub, dimensions) => ReadVectorText(v, w, s, pos, sub, dimensions, pos + |Print(w, t)|);
  }

  lemma ReadUdt(v: Vocabulary, s: string, pos: nat, name: string)
    requires At(s, pos, Quote(name)) && Stops(s, pos + |Quote(name)|)
    ensures Parse(v, s, pos) == Got(Udt("", name), pos + |Quote(name)|)
  {
    assert Quote(name) == "\"" + (Doubled(name) + "\"");
    AtSplit(s, pos, "\"", Doubled(name) + "\"");
    AtIndex(s, pos, "\"", 0);
    QuotedRoundTrip(s, pos + 1, name);
  }

  /** Reading the whole text of a type gives the type, up to what the text cannot show. */
  lemma RoundTrip(v: Vocabulary, w: Words, t: TypeInfo)
    requires Fits(v, w)
    ensures Parse(v, Print(w, t), 0) == Got(Canonical(t), |Print(w, t)|)
  {
    ReadBack(v, w, Print(w, t), 0, t);
  }

  /** The words do not show more than the canonical form. */
  ghost predicate Plain(w: Words) {
    w.kind(Varchar) == w.kind(Text) && forall code: nat :: w.kind(Unmapped(code)) == w.kind(Unmapped(0))
  }

  lemma SameText(v: Vocabulary, w: Words, a: TypeInfo, b: TypeInfo)
    requires Fits(v, w) && Plain(w)
    ensures Print(w, a) == Print(w, b) <==> Canonical(a) == Canonical(b)
  {
    RoundTrip(v, w, a);
    RoundTrip(v, w, b);
    PrintCanonical(w, a);
    PrintCanonical(w, b);
  }

  /** Canonical forgets nothing that is printed. */
  lemma {:induction false} PrintCanonical(w: Words, t: TypeInfo)
    requires Plain(w)
    ensures Print(w, Canonical(t)) == Print(w, t)
    decreases t, 1
  {
    match t
    case Nil =>
    case Native(_) =>
    case Collection(_, key, elem) =>
      PrintCanonical(w, key);
      PrintCanonical(w, elem);
    case Tuple(elems) => PrintCanonicalAll(w, elems);
    case Udt(_, _) =>
    case Vector(sub, _) => PrintCanonical(w, sub);
  }

  lemma {:induction false} PrintCanonicalAll(w: Words, ts: seq<TypeInfo>)
    requires Plain(w)
    ensures PrintAll(w, CanonicalAll(ts)) == PrintAll(w, ts)
    decreases ts, 0
  {
    if ts != [] {
      PrintCanonical(w, ts[0]);
      PrintCanonicalAll(w, ts[1..]);
      assert CanonicalAll(ts)[1..] == CanonicalAll(ts[1..]);
    }
  }
}
