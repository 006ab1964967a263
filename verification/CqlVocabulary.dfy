/** The words of CQL, and what the text of a type tells with them. */
module CqlVocabulary {
  import opened Common
  import opened CqlParser
  import opened CqlReadability
  import opened CqlTypes

  // ---- the words, by their length ----

  const KINDS_3: map<string, TypeInfo> := map[
    "int" := Native(Int), "map" := Native(MapKind), "set" := Native(SetKind), "udt" := Native(UdtKind)]
  const KINDS_4: map<string, TypeInfo> := map[
    "blob" := Native(Blob), "date" := Native(Date), "inet" := Native(Inet), "list" := Native(ListKind),
    "text" := Native(Text), "time" := Native(Time), "uuid" := Native(Uuid)]
  const KINDS_5: map<string, TypeInfo> := map[
    "ascii" := Native(Ascii), "float" := Native(Float), "tuple" := Native(TupleKind)]
  const KINDS_6: map<string, TypeInfo> := map[
    "bigint" := Native(BigInt), "custom" := Native(Custom), "double" := Native(Double), "varint" := Native(Varint)]
  const KINDS_7: map<string, TypeInfo> := map[
    "boolean" := Native(Boolean), "counter" := Native(Counter), "decimal" := Native(Decimal),
    "tinyint" := Native(TinyInt), "unknown" := Nil]
  const KINDS_8: map<string, TypeInfo> := map[
    "duration" := Native(Duration), "smallint" := Native(SmallInt), "timeuuid" := Native(TimeUuid)]
  const KINDS_9: map<string, TypeInfo> := map["timestamp" := Native(Timestamp)]

  const HEADS: map<string, Head> := map[
    "list" := ListHead, "set" := SetHead, "map" := MapHead, "tuple" := TupleHead, "vector" := VectorHead]

  const VOCABULARY := Vocabulary(KINDS_3 + KINDS_4 + KINDS_5 + KINDS_6 + KINDS_7 + KINDS_8 + KINDS_9, HEADS)

  lemma KindIsWord(kind: Kind)
    ensures IsWord(KindName(kind))
  {
  }

  lemma HeadIsWord(head: Head)
    ensures IsWord(HeadName(head)) && HeadName(head) in HEADS && HEADS[HeadName(head)] == head
  {
  }

  /** A word of the table has this length. */
  predicate OfLength(words: map<string, TypeInfo>, word: string, n: nat) {
    word in words ==> |word| == n
  }

  lemma Lengths(word: string)
    ensures OfLength(KINDS_3, word, 3) && OfLength(KINDS_4, word, 4) && OfLength(KINDS_5, word, 5) && OfLength(KINDS_6, word, 6)
    ensures OfLength(KINDS_7, word, 7) && OfLength(KINDS_8, word, 8) && OfLength(KINDS_9, word, 9)
  {
  }

  /** The words of other lengths are in no one's way. */
  lemma Listed(
    word: string, t: TypeInfo, k3: map<string, TypeInfo>, k4: map<string, TypeInfo>, k5: map<string, TypeInfo>,
    k6: map<string, TypeInfo>, k7: map<string, TypeInfo>, k8: map<string, TypeInfo>, k9: map<string, TypeInfo>)
    requires OfLength(k3, word, 3) && OfLength(k4, word, 4) && OfLength(k5, word, 5) && OfLength(k6, word, 6)
    requires OfLength(k7, word, 7) && OfLength(k8, word, 8) && OfLength(k9, word, 9)
    requires || In(k3, word, t) || In(k4, word, t) || In(k5, word, t) || In(k6, word, t) || In(k7, word, t)
             || In(k8, word, t) || In(k9, word, t)
    ensures In(k3 + k4 + k5 + k6 + k7 + k8 + k9, word, t)
  {
  }

  lemma KindIsListed3(kind: Kind)
    requires |KindName(kind)| == 3
    ensures KindName(kind) in KINDS_3 && KINDS_3[KindName(kind)] == CanonicalKind(kind)
  {
  }

  lemma KindIsListed4(kind: Kind)
    requires |KindName(kind)| == 4
    ensures KindName(kind) in KINDS_4 && KINDS_4[KindName(kind)] == CanonicalKind(kind)
  {
  }

  lemma KindIsListed5(kind: Kind)
    requires |KindName(kind)| == 5
    ensures KindName(kind) in KINDS_5 && KINDS_5[KindName(kind)] == CanonicalKind(kind)
  {
  }

  lemma KindIsListed6(kind: Kind)
    requires |KindName(kind)| == 6
    ensures KindName(kind) in KINDS_6 && KINDS_6[KindName(kind)] == CanonicalKind(kind)
  {
  }

  lemma KindIsListed7(kind: Kind)
    requires |KindName(kind)| == 7
    ensures KindName(kind) in KINDS_7 && KINDS_7[KindName(kind)] == CanonicalKind(kind)
  {
  }

  lemma KindIsListed8(kind: Kind)
    requires |KindName(kind)| == 8
    ensures KindName(kind) in KINDS_8 && KINDS_8[KindName(kind)] == CanonicalKind(kind)
  {
  }

  lemma KindIsListed9(kind: Kind)
    requires |KindName(kind)| == 9
    ensures KindName(kind) in KINDS_9 && KINDS_9[KindName(kind)] == CanonicalKind(kind)
  {
  }

  predicate In(words: map<string, TypeInfo>, word: string, t: TypeInfo) {
    word in words && words[word] == t
  }

  lemma Listed3(word: string, t: TypeInfo)
    requires In(KINDS_3, word, t)
    ensures In(VOCABULARY.kinds, word, t)
  {
    Lengths(word);
    Listed(word, t, KINDS_3, KINDS_4, KINDS_5, KINDS_6, KINDS_7, KINDS_8, KINDS_9);
  }

  lemma Listed4(word: string, t: TypeInfo)
    requires In(KINDS_4, word, t)
    ensures In(VOCABULARY.kinds, word, t)
  {
    Lengths(word);
    Listed(word, t, KINDS_3, KINDS_4, KINDS_5, KINDS_6, KINDS_7, KINDS_8, KINDS_9);
  }

  lemma Listed5(word: string, t: TypeInfo)
    requires In(KINDS_5, word, t)
    ensures In(VOCABULARY.kinds, word, t)
  {
    Lengths(word);
    Listed(word, t, KINDS_3, KINDS_4, KINDS_5, KINDS_6, KINDS_7, KINDS_8, KINDS_9);
  }

  lemma Listed6(word: string, t: TypeInfo)
    requires In(KINDS_6, word, t)
    ensures In(VOCABULARY.kinds, word, t)
  {
    Lengths(word);
    Listed(word, t, KINDS_3, KINDS_4, KINDS_5, KINDS_6, KINDS_7, KINDS_8, KINDS_9);
  }

  lemma Listed7(word: string, t: TypeInfo)
    requires In(KINDS_7, word, t)
    ensures In(VOCABULARY.kinds, word, t)
  {
    Lengths(word);
    Listed(word, t, KINDS_3, KINDS_4, KINDS_5, KINDS_6, KINDS_7, KINDS_8, KINDS_9);
  }

  lemma Listed8(word: string, t: TypeInfo)
    requires In(KINDS_8, word, t)
    ensures In(VOCABULARY.kinds, word, t)
  {
    Lengths(word);
    Listed(word, t, KINDS_3, KINDS_4, KINDS_5, KINDS_6, KINDS_7, KINDS_8, KINDS_9);
  }

  lemma Listed9(word: string, t: TypeInfo)
    requires In(KINDS_9, word, t)
    ensures In(VOCABULARY.kinds, word, t)
  {
    Lengths(word);
    Listed(word, t, KINDS_3, KINDS_4, KINDS_5, KINDS_6, KINDS_7, KINDS_8, KINDS_9);
  }

  lemma KindIsListed(kind: Kind)
    ensures In(VOCABULARY.kinds, KindName(kind), CanonicalKind(kind))
  {
    var word, t := KindName(kind), CanonicalKind(kind);
    if |word| == 3 {
      KindIsListed3(kind);
      Listed3(word, t);
    } else if |word| == 4 {
      KindIsListed4(kind);
      Listed4(word, t);
    } else if |word| == 5 {
      KindIsListed5(kind);
      Listed5(word, t);
    } else if |word| == 6 {
      KindIsListed6(kind);
      Listed6(word, t);
    } else if |word| == 7 {
      KindIsListed7(kind);
      Listed7(word, t);
    } else if |word| == 8 {
      KindIsListed8(kind);
      Listed8(word, t);
    } else {
      KindIsListed9(kind);
      Listed9(word, t);
    }
  }

  /** The printer uses these words, each for its kind. */
  lemma VocabularyFits()
    ensures Fits(VOCABULARY, CQL)
  {
    forall kind: Kind
      ensures IsWord(CQL.kind(kind)) && CQL.kind(kind) in VOCABULARY.kinds
      ensures VOCABULARY.kinds[CQL.kind(kind)] == CanonicalKind(kind)
    {
      KindIsWord(kind);
      KindIsListed(kind);
    }
    forall head: Head
      ensures IsWord(CQL.head(head)) && CQL.head(head) in VOCABULARY.heads && VOCABULARY.heads[CQL.head(head)] == head
    {
      HeadIsWord(head);
    }
  }

  lemma FittingVocabulary() returns (v: Vocabulary)
    ensures Fits(v, CQL)
  {
    VocabularyFits();
    v := VOCABULARY;
  }

  /** CQL text is readable: with CQL's own words, the text of every type is read back, wherever it stands. */
  lemma Readable(s: string, pos: nat, t: TypeInfo)
    requires At(s, pos, Print(CQL, t)) && Stops(s, pos + |Print(CQL, t)|)
    ensures Parse(VOCABULARY, s, pos) == Got(Canonical(t), pos + |Print(CQL, t)|)
  {
    VocabularyFits();
    ReadBack(VOCABULARY, CQL, s, pos, t);
  }

  /** Two types have the same CQL text exactly when they are the same type up to what the text cannot show. */
  lemma SameTextIff(a: TypeInfo, b: TypeInfo)
    ensures Print(CQL, a) == Print(CQL, b) <==> Canonical(a) == Canonical(b)
  {
    var v := FittingVocabulary();
    SameText(v, CQL, a, b);
  }
}
