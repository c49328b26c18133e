/** Typed values of a parsed document (property_t), their type tags and names,
    the integer view of a property, and record ids (rid_t) with their two
    textual forms. */
module Properties {
  import opened Wrappers
  import opened Bytes
  import opened Text

  /** The ORIENT_RECORD_TYPE_* enumeration, in declaration order. */
  datatype PropType =
    | Unknown | Bool | Byte | Short | Int | Long | Str | Binary | Float | Double
    | BigDecimal | Date | DateTime | Link | LinkSet | Embedded | Collection | Map | Null

  /** The numeric value of the tag (0 for UNKNOWN up to 18 for NULL). */
  function Code(t: PropType): (k: byte)
    ensures k < 19
    ensures k == 0 <==> t == Unknown
  {
    match t
    case Unknown => 0
    case Bool => 1
    case Byte => 2
    case Short => 3
    case Int => 4
    case Long => 5
    case Str => 6
    case Binary => 7
    case Float => 8
    case Double => 9
    case BigDecimal => 10
    case Date => 11
    case DateTime => 12
    case Link => 13
    case LinkSet => 14
    case Embedded => 15
    case Collection => 16
    case Map => 17
    case Null => 18
  }

  /** Distinct tags have distinct codes. */
  lemma CodeInjective(a: PropType, b: PropType)
    requires Code(a) == Code(b)
    ensures a == b
  {
  }

  /** type2str: the tag's name; the UNKNOWN tag falls through to "unknown:" and its code. */
  function TypeName(t: PropType): string
  {
    match t
    case Bool => "bool"
    case Byte => "byte"
    case Short => "short"
    case Int => "int"
    case Long => "long"
    case Str => "string"
    case Binary => "binary"
    case Float => "float"
    case Double => "double"
    case BigDecimal => "bigdecimal"
    case Date => "date"
    case DateTime => "datetime"
    case Link => "link"
    case LinkSet => "linkset"
    case Embedded => "embedded"
    case Collection => "collection"
    case Map => "map"
    case Null => "null"
    case Unknown => "unknown:" + Itoa(Code(t))
  }

  /** No two tags share a name, and only the unknown tag gets the "unknown:" form. */
  lemma TypeNameInjective(a: PropType, b: PropType)
    requires TypeName(a) == TypeName(b)
    ensures a == b
  {
    assert TypeName(Unknown) == "unknown:0";
  }

  /** A parsed value: its name (empty for collection elements), type tag, text and
      the elements of a collection. */
  datatype Property = Property(name: string, ptype: PropType, data: string, embedded: seq<Property>)

  /** A fresh property_t: named, of unknown type, with no data yet. */
  function NewProperty(name: string): (p: Property)
    ensures p.name == name && p.ptype == Unknown && p.data == [] && p.embedded == []
  {
    Property(name, Unknown, [], [])
  }

  /** operator int: atoi of the data (read as a C string) when the tag is INT, an error
      naming the tag's code otherwise. */
  function AsInt(p: Property): (o: Result<int>)
    ensures o.Ok? <==> p.ptype == Int
    ensures o.Err? ==> o.error == Exception("property_t::int(): Invalid type [" + Itoa(Code(p.ptype)) + "] !")
  {
    if p.ptype == Int then Ok(Atoi(CStr(p.data)))
    else Err(Exception("property_t::int(): Invalid type [" + Itoa(Code(p.ptype)) + "] !"))
  }

  /** An INT property whose data is the decimal text of n converts back to n. */
  lemma AsIntOfDigits(name: string, n: nat)
    ensures AsInt(Property(name, Int, NatText(n), [])) == Ok(n)
  {
    var s := NatText(n);
    CStrOfPlain(s);
    AtoiOfItoa(n);
  }

  /** A record id: a cluster id and a cluster position, or the invalid default. */
  datatype Rid = Rid(id: s16, pos: s64, valid: bool)

  const NO_RID := Rid(-1, -1, false)

  /** rid_t::str: "id:pos", or empty when invalid. */
  function RidStr(r: Rid): string
  {
    if !r.valid then "" else Itoa(r.id) + ":" + Itoa(r.pos)
  }

  /** rid_t's string conversion: "#id:pos", or empty when invalid. */
  function RidText(r: Rid): string
  {
    if !r.valid then "" else "#" + Itoa(r.id) + ":" + Itoa(r.pos)
  }

  /** The '#' form is the plain form behind a '#', and an invalid id has neither. */
  lemma RidTextIsHashStr(r: Rid)
    ensures r.valid ==> RidText(r) == "#" + RidStr(r)
    ensures !r.valid ==> RidText(r) == [] && RidStr(r) == []
  {
  }

  /** The plain form cut at its first ':' into cluster id and position texts. */
  function SplitRid(t: string): (string, string)
  {
    var k := SpanToColon(t);
    (t[..k], if k < |t| then t[k + 1..] else [])
  }

  /** Valid ids are told apart by their plain form: the text determines both fields. */
  lemma RidStrInjective(a: Rid, b: Rid)
    requires a.valid && b.valid && RidStr(a) == RidStr(b)
    ensures a == b
  {
    RidStrSplits(a);
    RidStrSplits(b);
    ItoaInjective(a.id, b.id);
    ItoaInjective(a.pos, b.pos);
  }

  lemma RidStrSplits(r: Rid)
    requires r.valid
    ensures SplitRid(RidStr(r)) == (Itoa(r.id), Itoa(r.pos))
  {
    var idText := Itoa(r.id);
    var t := RidStr(r);
    ItoaChars(r.id);
    SpanStopsAtColon(idText, Itoa(r.pos));
    assert t[..|idText|] == idText;
    assert t[|idText| + 1..] == Itoa(r.pos);
  }

  lemma SpanStopsAtColon(a: string, b: string)
    requires forall i | 0 <= i < |a| :: a[i] != ':' && a[i] != '\0'
    ensures SpanToColon(a + ":" + b) == |a|
  {
    if a != [] {
      assert (a + ":" + b)[1..] == a[1..] + ":" + b;
      SpanStopsAtColon(a[1..], b);
    }
  }
}
