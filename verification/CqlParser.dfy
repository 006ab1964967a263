/** A reader for printed CQL types, independent of the printer, and the proof that printing
    loses nothing but what the text cannot show: the text determines the type. */
module CqlParser {
  import opened Common
  import opened CqlTypes

  /** The type as the text shows it: varchar is text, codes without a name are unknown, a
      collection of an odd kind is just its name, and a user type is its name alone. */
  function Canonical(t: TypeInfo): TypeInfo
    decreases t, 1
  {
    match t
    case Nil => Nil
    case Native(kind) => CanonicalKind(kind)
    case Collection(kind, key, elem) =>
      if kind.MapKind? then Collection(MapKind, Canonical(key), Canonical(elem))
      else if kind.ListKind? then Collection(ListKind, Nil, Canonical(elem))
      else if kind.SetKind? then Collection(SetKind, Nil, Canonical(elem))
      else CanonicalKind(kind)
    case Tuple(elems) => Tuple(CanonicalAll(elems))
    case Udt(_, name) => Udt("", name)
    case Vector(sub, dimensions) => Vector(Canonical(sub), dimensions)
  }

  function CanonicalAll(ts: seq<TypeInfo>): (cs: seq<TypeInfo>)
    ensures |cs| == |ts|
    decreases ts, 0
  {
    if ts == [] then [] else [Canonical(ts[0])] + CanonicalAll(ts[1..])
  }

  function CanonicalKind(kind: Kind): TypeInfo {
    if kind.Varchar? then Native(Text) else if kind.Unmapped? then Nil else Native(kind)
  }

  // ---- reading ----

  predicate IsLetter(c: char) {
    'a' <= c <= 'z'
  }

  predicate IsDigit(c: char) {
    '0' <= c <= '9'
  }

  /** The end of the run of characters of one class that starts at `pos`. */
  function RunEnd(s: string, pos: nat, letters: bool): (end: nat)
    requires pos <= |s|
    ensures pos <= end <= |s|
    decreases |s| - pos
  {
    if pos < |s| && (if letters then IsLetter(s[pos]) else IsDigit(s[pos])) then RunEnd(s, pos + 1, letters) else pos
  }

  /** The identifier after an opening quote, up to a quote that is not doubled. */
  function ReadQuoted(s: string, pos: nat): (r: Option<(string, nat)>)
    requires pos <= |s|
    ensures r.Some? ==> pos < r.value.1 <= |s|
    decreases |s| - pos
  {
    if pos == |s| then None
    else if s[pos] != '"' then
      var rest := ReadQuoted(s, pos + 1);
      if rest.None? then None else Some(([s[pos]] + rest.value.0, rest.value.1))
    else if pos + 1 < |s| && s[pos + 1] == '"' then
      var rest := ReadQuoted(s, pos + 2);
      if rest.None? then None else Some((['"'] + rest.value.0, rest.value.1))
    else Some(("", pos + 1))
  }

  function Value(digits: string): nat
    requires forall c :: c in digits ==> IsDigit(c)
  {
    if digits == "" then 0
    else
      var last := digits[|digits| - 1];
      assert last in digits && IsDigit(last);
      10 * Value(digits[..|digits| - 1]) + (last as int - '0' as int)
  }

  lemma RunIsClass(s: string, pos: nat, letters: bool)
    requires pos <= |s|
    ensures forall i :: pos <= i < RunEnd(s, pos, letters) ==> if letters then IsLetter(s[i]) else IsDigit(s[i])
    decreases |s| - pos
  {
  }

  function ReadNat(s: string, pos: nat): (r: Option<(int, nat)>)
    requires pos <= |s|
    ensures r.Some? ==> pos < r.value.1 <= |s|
  {
    var end := RunEnd(s, pos, false);
    if end == pos then None
    else
      RunIsClass(s, pos, false);
      Some((Value(s[pos..end]), end))
  }

  function ReadInt(s: string, pos: nat): (r: Option<(int, nat)>)
    requires pos <= |s|
    ensures r.Some? ==> pos < r.value.1 <= |s|
  {
    if pos < |s| && s[pos] == '-' then
      var n := ReadNat(s, pos + 1);
      if n.None? then None else Some((-n.value.0, n.value.1))
    else ReadNat(s, pos)
  }

  predicate Closes(s: string, pos: nat) {
    pos < |s| && s[pos] == '>'
  }

  predicate Separates(s: string, pos: nat) {
    pos + 1 < |s| && s[pos] == ',' && s[pos + 1] == ' '
  }

  /** The words the reader knows: those that stand alone and those that open a bracket. */
  datatype Vocabulary = Vocabulary(kinds: map<string, TypeInfo>, heads: map<string, Head>)

  /** A type and where its text ends. */
  datatype Parsed = Fail | Got(t: TypeInfo, end: nat)

  datatype ParsedAll = FailAll | GotAll(ts: seq<TypeInfo>, end: nat)

  /** The type whose text starts at `pos`, and where that text ends. */
  function Parse(v: Vocabulary, s: string, pos: nat): (r: Parsed)
    requires pos <= |s|
    ensures r.Got? ==> pos < r.end <= |s|
    decreases |s| - pos, 1
  {
    if pos == |s| then Fail
    else if s[pos] == '"' then
      var q := ReadQuoted(s, pos + 1);
      if q.None? then Fail else Got(Udt("", q.value.0), q.value.1)
    else
      var end := RunEnd(s, pos, true);
      if end == pos then Fail
      else
        var word := s[pos..end];
        if end < |s| && s[end] == '<' then
          if word in v.heads then ParseComposite(v, s, v.heads[word], end + 1) else Fail
        else if word in v.kinds then Got(v.kinds[word], end)
        else Fail
  }

  function ParseComposite(v: Vocabulary, s: string, head: Head, pos: nat): (r: Parsed)
    requires pos <= |s|
    ensures r.Got? ==> pos < r.end <= |s|
    decreases |s| - pos, 4
  {
    if head.TupleHead? then ParseTuple(v, s, pos)
    else
      var first := Parse(v, s, pos);
      if first.Fail? then Fail
      else
        var t, p := first.t, first.end;
        if head.MapHead? then FinishMap(v, s, t, p)
        else if head.VectorHead? then FinishVector(s, t, p)
        else FinishSingle(s, head, t, p)
  }

  /** What follows the first type inside the brackets. */
  function FinishMap(v: Vocabulary, s: string, key: TypeInfo, pos: nat): (r: Parsed)
    requires pos <= |s|
    ensures r.Got? ==> pos < r.end <= |s|
    decreases |s| - pos, 4
  {
    if !Separates(s, pos) then Fail
    else
      var elem := Parse(v, s, pos + 2);
      if elem.Fail? || !Closes(s, elem.end) then Fail else Got(Collection(MapKind, key, elem.t), elem.end + 1)
  }

  function FinishVector(s: string, sub: TypeInfo, pos: nat): (r: Parsed)
    requires pos <= |s|
    ensures r.Got? ==> pos < r.end <= |s|
  {
    if !Separates(s, pos) then Fail
    else
      var n := ReadInt(s, pos + 2);
      if n.None? || !Closes(s, n.value.1) then Fail else Got(Vector(sub, n.value.0), n.value.1 + 1)
  }

  function FinishSingle(s: string, head: Head, elem: TypeInfo, pos: nat): (r: Parsed)
    requires pos <= |s|
    ensures r.Got? ==> pos < r.end <= |s|
  {
    if !Closes(s, pos) then Fail else Got(Collection(if head.ListHead? then ListKind else SetKind, Nil, elem), pos + 1)
  }

  function ParseTuple(v: Vocabulary, s: string, pos: nat): (r: Parsed)
    requires pos <= |s|
    ensures r.Got? ==> pos < r.end <= |s|
    decreases |s| - pos, 3
  {
    if Closes(s, pos) then Got(Tuple([]), pos + 1)
    else
      var elems := ParseElems(v, s, pos);
      if elems.FailAll? || !Closes(s, elems.end) then Fail else Got(Tuple(elems.ts), elems.end + 1)
  }

  function ParseElems(v: Vocabulary, s: string, pos: nat): (r: ParsedAll)
    requires pos <= |s|
    ensures r.GotAll? ==> pos < r.end <= |s|
    decreases |s| - pos, 2
  {
    var first := Parse(v, s, pos);
    if first.Fail? then FailAll
    else
      var t, p := first.t, first.end;
      if Separates(s, p) then
        var rest := ParseElems(v, s, p + 2);
        if rest.FailAll? then FailAll else GotAll([t] + rest.ts, rest.end)
      else GotAll([t], p)
  }

  // ---- the pieces come back ----

  /** A printed type is followed by nothing, a comma or a closing bracket. */
  predicate Stops(s: string, pos: nat) {
    pos == |s| || (pos < |s| && (s[pos] == ',' || s[pos] == '>'))
  }

  lemma {:induction false} RunIsWord(s: string, pos: nat, word: string, letters: bool)
    requires At(s, pos, word) && (forall c :: c in word ==> if letters then IsLetter(c) else IsDigit(c))
    requires var end := pos + |word|; end == |s| || !(if letters then IsLetter(s[end]) else IsDigit(s[end]))
    ensures RunEnd(s, pos, letters) == pos + |word|
    decreases |word|
  {
    if word != "" {
      AtIndex(s, pos, word, 0);
      assert word == [word[0]] + word[1..];
      AtSplit(s, pos, [word[0]], word[1..]);
      RunIsWord(s, pos + 1, word[1..], letters);
    }
  }

  /** A quoted identifier is read back, whatever quotes, commas or brackets it contains. */
  lemma {:induction false} QuotedRoundTrip(s: string, pos: nat, name: string)
    requires At(s, pos, Doubled(name) + "\"")
    requires var end := pos + |Doubled(name)| + 1; end == |s| || s[end] != '"'
    ensures ReadQuoted(s, pos) == Some((name, pos + |Doubled(name)| + 1))
    decreases |name|
  {
    if name == "" {
      assert Doubled(name) + "\"" == "\"";
      AtIndex(s, pos, "\"", 0);
    } else {
      var rest := Doubled(name[1..]) + "\"";
      QuoteUnfolds(name);
      if name[0] == '"' {
        AtSplit(s, pos, "\"\"", rest);
        AtIndex(s, pos, "\"\"", 0);
        AtIndex(s, pos, "\"\"", 1);
        QuotedRoundTrip(s, pos + 2, name[1..]);
      } else {
        AtSplit(s, pos, [name[0]], rest);
        AtIndex(s, pos, [name[0]], 0);
        QuotedRoundTrip(s, pos + 1, name[1..]);
      }
      assert [name[0]] + name[1..] == name;
    }
  }

  lemma QuoteUnfolds(name: string)
    requires name != ""
    ensures Doubled(name) + "\"" == (if name[0] == '"' then "\"\"" else [name[0]]) + (Doubled(name[1..]) + "\"")
  {
  }

  lemma {:induction false} DigitsRoundTrip(n: nat)
    ensures Digits(n) != "" && (forall c :: c in Digits(n) ==> IsDigit(c)) && Value(Digits(n)) == n
    decreases n
  {
    if n >= 10 {
      DigitsRoundTrip(n / 10);
      assert Digits(n)[..|Digits(n)| - 1] == Digits(n / 10);
    } else {
      assert Digits(n)[..0] == "";
    }
  }

  lemma IntRoundTrip(s: string, pos: nat, n: int)
    requires At(s, pos, IntText(n)) && Stops(s, pos + |IntText(n)|)
    ensures ReadInt(s, pos) == Some((n, pos + |IntText(n)|))
  {
    if n < 0 {
      AtSplit(s, pos, "-", Digits(-n));
      AtIndex(s, pos, "-", 0);
      NatRoundTrip(s, pos + 1, -n);
    } else {
      NatRoundTrip(s, pos, n);
    }
  }

  lemma NatRoundTrip(s: string, pos: nat, n: nat)
    requires At(s, pos, Digits(n)) && Stops(s, pos + |Digits(n)|)
    ensures pos < |s| && s[pos] != '-' && ReadNat(s, pos) == Some((n as int, pos + |Digits(n)|))
  {
    DigitsRoundTrip(n);
    AtSlice(s, pos, Digits(n));
    AtIndex(s, pos, Digits(n), 0);
    assert Digits(n)[0] in Digits(n);
    RunIsWord(s, pos, Digits(n), false);
  }

  predicate IsWord(word: string) {
    word != "" && forall c :: c in word ==> IsLetter(c)
  }

  /** The reader finds a printed word that a bracket or a stop follows. */
  lemma WordRead(s: string, pos: nat, word: string)
    requires At(s, pos, word) && IsWord(word)
    requires var end := pos + |word|; Stops(s, end) || (end < |s| && s[end] == '<')
    ensures pos < |s| && s[pos] != '"' && RunEnd(s, pos, true) == pos + |word|
  {
    AtIndex(s, pos, word, 0);
    assert word[0] in word;
    RunIsWord(s, pos, word, true);
  }

  /** The reader's words are the printer's. */
  ghost predicate Fits(v: Vocabulary, w: Words) {
    && (forall kind :: IsWord(w.kind(kind)) && w.kind(kind) in v.kinds && v.kinds[w.kind(kind)] == CanonicalKind(kind))
    && (forall head :: IsWord(w.head(head)) && w.head(head) in v.heads && v.heads[w.head(head)] == head)
  }

  lemma NamedRoundTrip(v: Vocabulary, w: Words, s: string, pos: nat, kind: Kind)
    requires Fits(v, w) && At(s, pos, w.kind(kind)) && Stops(s, pos + |w.kind(kind)|)
    ensures Parse(v, s, pos) == Got(CanonicalKind(kind), pos + |w.kind(kind)|)
  {
    WordRead(s, pos, w.kind(kind));
    AtSlice(s, pos, w.kind(kind));
  }

  /** At a composite's head the reader goes on inside the brackets. */
  lemma CompositeRead(v: Vocabulary, w: Words, s: string, pos: nat, head: Head)
    requires Fits(v, w) && At(s, pos, Open(w, head))
    ensures pos < |s| && Parse(v, s, pos) == ParseComposite(v, s, head, pos + |Open(w, head)|)
  {
    var word := w.head(head);
    AtSplit(s, pos, word, "<");
    AtIndex(s, pos + |word|, "<", 0);
    WordRead(s, pos, word);
    AtSlice(s, pos, word);
  }
}
