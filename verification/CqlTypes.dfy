/** The CQL type printer (cqlTypeName in agents/drivers/cassandra-go/values.go and
    quoteCQLIdentifier in agents/drivers/cassandra-go/metadata.go). */
module CqlTypes {

  /** gocql.Type; Unmapped stands for codes that the name table does not have. */
  datatype Kind =
    | Custom | Ascii | BigInt | Blob | Boolean | Counter | Decimal | Double | Float | Int | Text | Timestamp | Uuid
    | Varchar | Varint | TimeUuid | Inet | Date | Time | SmallInt | TinyInt | Duration | UdtKind | TupleKind
    | ListKind | MapKind | SetKind | Unmapped(code: nat)

  datatype TypeInfo =
    | Nil
    | Native(kind: Kind)
    | Collection(kind: Kind, key: TypeInfo, elem: TypeInfo)
    | Tuple(elems: seq<TypeInfo>)
    | Udt(keyspace: string, name: string)
    | Vector(sub: TypeInfo, dimensions: int)

  function KindName(kind: Kind): string {
    match kind
    case Custom => "custom" case Ascii => "ascii" case BigInt => "bigint" case Blob => "blob"
    case Boolean => "boolean" case Counter => "counter" case Decimal => "decimal" case Double => "double"
    case Float => "float" case Int => "int" case Text => "text" case Timestamp => "timestamp" case Uuid => "uuid"
    case Varchar => "text" case Varint => "varint" case TimeUuid => "timeuuid" case Inet => "inet" case Date => "date"
    case Time => "time" case SmallInt => "smallint" case TinyInt => "tinyint" case Duration => "duration"
    case UdtKind => "udt" case TupleKind => "tuple" case ListKind => "list" case MapKind => "map" case SetKind => "set"
    case Unmapped(_) => "unknown"
  }

  /** The words that open a bracket. */
  datatype Head = ListHead | SetHead | MapHead | TupleHead | VectorHead

  function HeadName(head: Head): string {
    match head
    case ListHead => "list" case SetHead => "set" case MapHead => "map" case TupleHead => "tuple"
    case VectorHead => "vector"
  }

  /** The words of a type language; CQL's are the ones above. */
  datatype Words = Words(kind: Kind -> string, head: Head -> string)

  const CQL := Words(KindName, HeadName)

  /** strings.ReplaceAll of one quote by two. */
  function Doubled(s: string): string {
    if s == "" then "" else (if s[0] == '"' then "\"\"" else [s[0]]) + Doubled(s[1..])
  }

  function Quote(s: string): string {
    "\"" + Doubled(s) + "\""
  }

  function Digits(n: nat): string {
    if n < 10 then [Digit(n)] else Digits(n / 10) + [Digit(n % 10)]
  }

  function Digit(n: nat): char
    requires n < 10
  {
    '0' + n as char
  }

  function IntText(n: int): string {
    if n < 0 then "-" + Digits(-n) else Digits(n)
  }

  function Open(w: Words, head: Head): string {
    w.head(head) + "<"
  }

  function Print(w: Words, t: TypeInfo): string
    decreases t, 1
  {
    match t
    case Nil => w.kind(Unmapped(0))
    case Native(kind) => w.kind(kind)
    case Collection(kind, key, elem) =>
      if kind.MapKind? then Open(w, MapHead) + Print(w, key) + ", " + Print(w, elem) + ">"
      else if kind.ListKind? then Open(w, ListHead) + Print(w, elem) + ">"
      else if kind.SetKind? then Open(w, SetHead) + Print(w, elem) + ">"
      else w.kind(kind)
    case Tuple(elems) => Open(w, TupleHead) + PrintAll(w, elems) + ">"
    case Udt(_, name) => Quote(name)
    case Vector(sub, dimensions) => Open(w, VectorHead) + Print(w, sub) + ", " + IntText(dimensions) + ">"
  }

  /** The printed elements, joined by a comma and a space. */
  function PrintAll(w: Words, ts: seq<TypeInfo>): string
    decreases ts, 0
  {
    if ts == [] then "" else if |ts| == 1 then Print(w, ts[0]) else Print(w, ts[0]) + ", " + PrintAll(w, ts[1..])
  }

  function Join(parts: seq<string>): string {
    if parts == [] then "" else if |parts| == 1 then parts[0] else parts[0] + ", " + Join(parts[1..])
  }

  lemma {:induction false} PrintAllJoins(w: Words, ts: seq<TypeInfo>, parts: seq<string>)
    requires |parts| == |ts| && forall i :: 0 <= i < |ts| ==> parts[i] == Print(w, ts[i])
    ensures PrintAll(w, ts) == Join(parts)
    decreases |ts|
  {
    if |ts| > 1 {
      PrintAllJoins(w, ts[1..], parts[1..]);
    }
  }

  lemma OpenTexts()
    ensures Open(CQL, ListHead) == "list<" && Open(CQL, SetHead) == "set<" && Open(CQL, MapHead) == "map<"
    ensures Open(CQL, TupleHead) == "tuple<" && Open(CQL, VectorHead) == "vector<"
  {
  }

  /** cqlTypeName, with the loop that fills the parts of a tuple. */
  method TypeName(t: TypeInfo) returns (name: string)
    ensures name == Print(CQL, t)
    decreases t
  {
    OpenTexts();
    match t
    case Nil => return "unknown";
    case Native(kind) => return KindName(kind);
    case Collection(kind, key, elem) =>
      if kind.MapKind? {
        var k := TypeName(key);
        var e := TypeName(elem);
        return "map<" + k + ", " + e + ">";
      } else if kind.ListKind? {
        var e := TypeName(elem);
        return "list<" + e + ">";
      } else if kind.SetKind? {
        var e := TypeName(elem);
        return "set<" + e + ">";
      }
      return KindName(kind);
    case Tuple(elems) =>
      var parts := new string[|elems|];
      for index := 0 to |elems|
        invariant forall i :: 0 <= i < index ==> parts[i] == Print(CQL, elems[i])
      {
        parts[index] := TypeName(elems[index]);
      }
      PrintAllJoins(CQL, elems, parts[..]);
      return "tuple<" + Join(parts[..]) + ">";
    case Udt(_, udt) => return Quote(udt);
    case Vector(sub, dimensions) =>
      var s := TypeName(sub);
      return "vector<" + s + ", " + IntText(dimensions) + ">";
  }
}
