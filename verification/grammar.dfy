/** The value grammar of a document's text (orient_record_t::add_property): one
    value is read starting at a position of the content, and the position after
    it (and after one trailing comma) is returned. Reading at or past the end of
    the content yields NUL, as indexing a std::string at its size does. */
module Grammar {
  import opened Wrappers
  import opened Text
  import opened Frame
  import opened Properties

  /** content[i]: the character, or NUL at and beyond the end. */
  function At(c: string, i: nat): char
  {
    if i < |c| then c[i] else '\0'
  }

  /** std::string(content.c_str() + a, b - a): b - a characters from a, NULs past the end. */
  function Slice(c: string, a: nat, b: nat): (s: string)
    requires a <= b
    ensures |s| == b - a
  {
    seq(b - a, i requires 0 <= i < b - a => At(c, a + i))
  }

  lemma SliceInside(c: string, a: nat, b: nat)
    requires a <= b <= |c|
    ensures Slice(c, a, b) == c[a..b]
  {
    var s := Slice(c, a, b);
    forall i | 0 <= i < b - a
      ensures s[i] == c[a..b][i]
    {
      assert s[i] == At(c, a + i);
    }
  }

  /** The characters that end an element of a collection or a link. */
  predicate Terminator(ch: char)
  {
    ch == ',' || ch == ')' || ch == ']' || ch == '*'
  }

  /** Characters left from pos: the measure every scan decreases. */
  function Rem(c: string, pos: nat): nat
  {
    if pos < |c| then |c| - pos else 0
  }

  /** The comma after a value belongs to it. */
  function SkipComma(c: string, pos: nat): (next: nat)
    ensures next == pos || (next == pos + 1 && At(c, pos) == ',')
  {
    if At(c, pos) == ',' then pos + 1 else pos
  }

  datatype Scan = Scan(data: string, pos: nat)

  /** The quoted-string loop; `pos` is the last character consumed (first the opening
      quote). It stops on a quote (left at `pos`) or once pos reaches |c| - 1; a backslash
      makes the character after it literal. */
  function Quoted(c: string, pos: nat, data: string): (s: Scan)
    requires pos <= |c|
    ensures pos <= s.pos <= |c|
    decreases |c| - pos
  {
    if pos + 1 < |c| then
      var p := pos + 1;
      if c[p] == '"' then Scan(data, p)
      else
        var q := if c[p] == '\\' then p + 1 else p;
        Quoted(c, q, data + [At(c, q)])
    else Scan(data, pos)
  }

  /** The quoted-string loop stops on a quote unless it ran into the last character. */
  lemma {:induction false} QuotedStops(c: string, pos: nat, data: string)
    requires pos <= |c|
    ensures var s := Quoted(c, pos, data); s.pos + 1 < |c| ==> c[s.pos] == '"'
    decreases |c| - pos
  {
    if pos + 1 < |c| && c[pos + 1] != '"' {
      var q := if c[pos + 1] == '\\' then pos + 2 else pos + 1;
      QuotedStops(c, q, data + [At(c, q)]);
    }
  }

  /** The link loop: digits and ':' up to a terminator or the end; anything else is rejected
      and reported by its signed char value. */
  function LinkBody(c: string, pos: nat, data: string): (o: Result<Scan>)
    requires pos <= |c|
    ensures o.Ok? ==> pos <= o.value.pos <= |c|
    decreases |c| - pos
  {
    if pos < |c| && !Terminator(c[pos]) then
      if c[pos] != ':' && !IsDigit(c[pos]) then
        Err(Exception("add_property(): Invalid link data: " + Itoa(SignedChar(c[pos]))))
      else
        LinkBody(c, pos + 1, data + [c[pos]])
    else Ok(Scan(data, pos))
  }

  /** The link loop appends the characters it passes over and stops at a terminator or the
      end; it accepts only digits and ':', and a rejection names a character of the content. */
  lemma {:induction false} LinkBodyAccepts(c: string, pos: nat, data: string)
    requires pos <= |c|
    ensures var o := LinkBody(c, pos, data);
            o.Ok? ==> o.value.data == data + c[pos..o.value.pos]
    ensures var o := LinkBody(c, pos, data);
            o.Ok? ==> o.value.pos == |c| || Terminator(c[o.value.pos])
    ensures var o := LinkBody(c, pos, data);
            o.Ok? ==> forall i | pos <= i < o.value.pos :: c[i] == ':' || IsDigit(c[i])
    ensures var o := LinkBody(c, pos, data);
            o.Err? ==> exists i | pos <= i < |c| :: o.error == Exception("add_property(): Invalid link data: " + Itoa(SignedChar(c[i])))
    decreases |c| - pos
  {
    var o := LinkBody(c, pos, data);
    if pos < |c| && !Terminator(c[pos]) {
      if c[pos] != ':' && !IsDigit(c[pos]) {
        assert o.error == Exception("add_property(): Invalid link data: " + Itoa(SignedChar(c[pos])));
      } else {
        assert o == LinkBody(c, pos + 1, data + [c[pos]]);
        LinkBodyAccepts(c, pos + 1, data + [c[pos]]);
        if o.Ok? {
          assert data + [c[pos]] + c[pos + 1..o.value.pos] == data + c[pos..o.value.pos];
        }
      }
    }
  }

  datatype MapScan = MapScan(closed: bool, data: string, pos: nat)

  /** The map loop, `while (!done && pos++ < size - 1)`: the position is advanced even by
      the failing test, so an unclosed map ends at |c|; a closed one ends after its '}'. */
  function MapBody(c: string, pos: nat, data: string): (m: MapScan)
    requires pos < |c|
    ensures pos < m.pos <= |c|
    ensures !m.closed ==> m.pos == |c|
    decreases |c| - pos
  {
    if pos + 1 < |c| then
      var p := pos + 1;
      if c[p] == '}' then MapScan(true, data, p + 1)
      else MapBody(c, p, data + [c[p]])
    else MapScan(false, data, pos + 1)
  }

  /** A map is closed exactly when the loop stopped right after a '}' of its own. */
  lemma {:induction false} MapBodyCloses(c: string, pos: nat, data: string)
    requires pos < |c|
    ensures var m := MapBody(c, pos, data); m.closed <==> c[m.pos - 1] == '}' && m.pos - 1 > pos
    decreases |c| - pos
  {
    if pos + 1 < |c| && c[pos + 1] != '}' {
      MapBodyCloses(c, pos + 1, data + [c[pos + 1]]);
    }
  }

  /** The type suffixes that end a plain value. */
  function Suffix(ch: char): Option<PropType>
  {
    match ch
    case 'b' => Some(Byte)
    case 's' => Some(Short)
    case 'i' => Some(Int)
    case 'l' => Some(Long)
    case 'f' => Some(Float)
    case 'd' => Some(Double)
    case 't' => Some(DateTime)
    case 'a' => Some(Date)
    case _ => None
  }

  datatype Plain = Plain(ptype: PropType, data: string, pos: nat)

  /** The plain-value loop: digits and '.' are collected; ')', ']' or ',' ends an INT
      without being consumed; a suffix letter sets the type and is consumed. */
  function PlainBody(c: string, pos: nat, data: string): (o: Result<Plain>)
    ensures o.Ok? ==> o.value.pos >= pos
    ensures o.Err? ==> o.error == Exception("add_property(): Invalid digit !")
    ensures o.Ok? && o.value.ptype != Int ==> o.value.pos > pos
    decreases Rem(c, pos)
  {
    if pos < |c| then
      var ch := c[pos];
      if ch == ')' || ch == ']' || ch == ',' then Ok(Plain(Int, data, pos))
      else if Suffix(ch).Some? then Ok(Plain(Suffix(ch).value, data, pos + 1))
      else if !IsDigit(ch) && ch != '.' then Err(Exception("add_property(): Invalid digit !"))
      else PlainBody(c, pos + 1, data + [ch])
    else Ok(Plain(Int, data, pos))
  }

  datatype Parsed = Parsed(prop: Property, next: nat)

  datatype Items = Items(elems: seq<Property>, next: nat)

  /** add_property: the value starting at pos, by its first character. */
  function AddProperty(c: string, pos: nat, name: string): (o: Result<Parsed>)
    ensures o.Ok? ==> o.value.prop.name == name && o.value.next >= pos
    ensures o.Ok? && pos < |c| ==> o.value.next > pos
    ensures Terminator(At(c, pos)) || At(c, pos) == '(' ==>
              o == Err(Exception("add_property(): Unimplemented type: " + Itoa(SignedChar(At(c, pos)))))
    decreases Rem(c, pos), 0
  {
    if At(c, pos) == '[' then
      var items :- Elements(c, pos + 1, []);
      var end := if At(c, items.next) == ']' then items.next + 1 else items.next;
      Ok(Parsed(Property(name, Collection, Slice(c, pos + 1, items.next), items.elems), SkipComma(c, end)))
    else Scalar(c, pos, name)
  }

  /** add_property at any character but '[': a value that holds no other values. */
  function Scalar(c: string, pos: nat, name: string): (o: Result<Parsed>)
    requires At(c, pos) != '['
    ensures o.Ok? ==> o.value.prop.name == name && o.value.next >= pos
    ensures o.Ok? && pos < |c| ==> o.value.next > pos
    ensures Terminator(At(c, pos)) || At(c, pos) == '(' ==>
              o == Err(Exception("add_property(): Unimplemented type: " + Itoa(SignedChar(At(c, pos)))))
  {
    var ch := At(c, pos);
    if ch == '"' then
      var s := Quoted(c, pos, []);
      Ok(Parsed(Property(name, Str, s.data, []), SkipComma(c, s.pos + 1)))
    else if ch == '#' then
      var s :- LinkBody(c, pos + 1, []);
      Ok(Parsed(Property(name, Link, s.data, []), SkipComma(c, s.pos)))
    else if ch == 't' || ch == 'f' then
      var width := if ch == 't' then 4 else 5;
      Ok(Parsed(Property(name, Bool, Slice(c, pos, pos + width), []), SkipComma(c, pos + width)))
    else if ch == '{' then
      var m := MapBody(c, pos, []);
      Ok(Parsed(Property(name, if m.closed then Map else Unknown, m.data, []), SkipComma(c, m.pos)))
    else if ch == '(' || Terminator(ch) then
      Err(Exception("add_property(): Unimplemented type: " + Itoa(SignedChar(ch))))
    else
      var v :- PlainBody(c, pos, []);
      Ok(Parsed(Property(name, v.ptype, v.data, []), SkipComma(c, v.pos)))
  }

  /** The collection loop: unnamed values until a terminator or until pos reaches |c| - 1. */
  function Elements(c: string, pos: nat, acc: seq<Property>): (o: Result<Items>)
    ensures o.Ok? ==> o.value.next >= pos
    decreases Rem(c, pos), 1
  {
    if pos + 1 < |c| && !Terminator(c[pos]) then
      var e :- AddProperty(c, pos, []);
      Elements(c, e.next, acc + [e.prop])
    else Ok(Items(acc, pos))
  }

  /** The collection loop keeps the elements it was given and adds unnamed ones after them. */
  lemma {:induction false} ElementsUnnamed(c: string, pos: nat, acc: seq<Property>)
    ensures var o := Elements(c, pos, acc);
            o.Ok? ==> |o.value.elems| >= |acc| && o.value.elems[..|acc|] == acc
    ensures var o := Elements(c, pos, acc);
            o.Ok? ==> forall i | |acc| <= i < |o.value.elems| :: o.value.elems[i].name == []
    decreases Rem(c, pos)
  {
    if pos + 1 < |c| && !Terminator(c[pos]) {
      match AddProperty(c, pos, [])
      case Err(_) =>
      case Ok(e) =>
        ElementsUnnamed(c, e.next, acc + [e.prop]);
        var o := Elements(c, e.next, acc + [e.prop]);
        if o.Ok? {
          assert o.value.elems[..|acc|] == (acc + [e.prop])[..|acc|];
        }
    }
  }

  // ---- Values as a serializer writes them, and what add_property makes of them ----

  /** A letter that names the type of a bare value. */
  type SuffixLetter = ch: char | Suffix(ch).Some? witness 'i'

  /** A value the grammar can carry: a string, a link to a record, a boolean, a
      non-negative integer with an optional type letter, or a list of such values. */
  datatype Value =
    | QuotedText(s: string)
    | LinkTo(cluster: nat, position: nat)
    | Flag(b: bool)
    | Number(n: nat, unit: Option<SuffixLetter>)
    | List(items: seq<Value>)

  /** The document text of a value; strings are quoted with safe_quote. */
  function Render(v: Value): (t: string)
    ensures |t| > 0
    decreases v
  {
    match v
    case QuotedText(s) => "\"" + SafeQuote(s) + "\""
    case LinkTo(a, b) => "#" + LinkText(a, b)
    case Flag(b) => if b then "true" else "false"
    case Number(n, unit) => NatText(n) + UnitText(unit)
    case List(items) => "[" + RenderItems(items) + "]"
  }

  /** A number's type letter as written: nothing, or the letter. */
  function UnitText(unit: Option<SuffixLetter>): string
  {
    if unit.Some? then [unit.value] else []
  }

  /** The type a number reads back as: the one its letter names, or INT. */
  function UnitType(unit: Option<SuffixLetter>): PropType
  {
    if unit.Some? then Suffix(unit.value).value else Int
  }

  /** A record id as a link carries it: cluster, ':', position. */
  function LinkText(a: nat, b: nat): string
  {
    NatText(a) + ":" + NatText(b)
  }

  /** The values of a list, separated by commas. */
  function RenderItems(items: seq<Value>): string
    decreases items
  {
    if items == [] then ""
    else if |items| == 1 then Render(items[0])
    else Render(items[0]) + ("," + RenderItems(items[1..]))
  }

  /** The property a value denotes once read under the given name. */
  function Meaning(v: Value, name: string): Property
    decreases v
  {
    match v
    case QuotedText(s) => Property(name, Str, s, [])
    case LinkTo(a, b) => Property(name, Link, LinkText(a, b), [])
    case Flag(b) => Property(name, Bool, if b then "true" else "false", [])
    case Number(n, unit) => Property(name, UnitType(unit), NatText(n), [])
    case List(items) => Property(name, Collection, RenderItems(items), Meanings(items))
  }

  function Meanings(items: seq<Value>): seq<Property>
    decreases items
  {
    if items == [] then [] else [Meaning(items[0], [])] + Meanings(items[1..])
  }

  /** t occurs in c at position p. */
  predicate Occurs(c: string, p: nat, t: string)
  {
    p + |t| <= |c| && c[p..p + |t|] == t
  }

  /** What may follow a value: the end of the content, ',', ')' or ']'. */
  predicate Follows(c: string, k: nat)
  {
    k == |c| || (k < |c| && (c[k] == ',' || c[k] == ')' || c[k] == ']'))
  }

  lemma OccursAt(c: string, p: nat, t: string, i: nat)
    requires Occurs(c, p, t) && i < |t|
    ensures c[p + i] == t[i]
  {
    assert c[p..p + |t|][i] == t[i];
  }

  lemma OccursHead(c: string, p: nat, t: string)
    requires Occurs(c, p, t) && t != []
    ensures c[p] == t[0] && Occurs(c, p + 1, t[1..])
  {
    OccursAt(c, p, t, 0);
    assert [t[0]] + t[1..] == t;
    OccursSplit(c, p, [t[0]], t[1..]);
  }

  lemma OccursSplit(c: string, p: nat, a: string, b: string)
    requires Occurs(c, p, a + b)
    ensures Occurs(c, p, a) && Occurs(c, p + |a|, b)
  {
    assert c[p..p + |a|] == (a + b)[..|a|];
    assert c[p + |a|..p + |a| + |b|] == (a + b)[|a|..];
  }

  /** A safe-quoted string followed by a quote reads back as the original string. */
  lemma {:induction false} QuotedRoundTrip(s: string, c: string, pos: nat, data: string, close: nat)
    requires Occurs(c, pos + 1, SafeQuote(s)) && close == pos + 1 + |SafeQuote(s)|
    requires close < |c| && c[close] == '"'
    ensures Quoted(c, pos, data) == Scan(data + s, close)
    decreases s
  {
    if s == [] {
      assert c[pos + 1] == '"';
    } else {
      var ch := s[0];
      QuoteSplit(c, pos, s, close);
      QuotedStep(c, pos, data, ch);
      QuotedRoundTrip(s[1..], c, pos + |Escaped(ch)|, data + [ch], close);
      ConsAppend(data, s);
    }
  }

  /** Where the first written character of a quoted string ends and the rest begins. */
  lemma QuoteSplit(c: string, pos: nat, s: string, close: nat)
    requires s != [] && Occurs(c, pos + 1, SafeQuote(s)) && close == pos + 1 + |SafeQuote(s)|
    ensures var e := Escaped(s[0]);
            Occurs(c, pos + 1, e) && Occurs(c, pos + |e| + 1, SafeQuote(s[1..]))
            && close == pos + |e| + 1 + |SafeQuote(s[1..])|
  {
    SafeQuoteCons(s);
    OccursSplit(c, pos + 1, Escaped(s[0]), SafeQuote(s[1..]));
  }

  lemma SafeQuoteCons(s: string)
    requires s != []
    ensures SafeQuote(s) == Escaped(s[0]) + SafeQuote(s[1..])
  {
  }

  lemma ConsAppend(data: string, s: string)
    requires s != []
    ensures (data + [s[0]]) + s[1..] == data + s
  {
    assert s == [s[0]] + s[1..];
  }

  /** One pass of the quoted-string loop reads one written character, escaped or not. */
  lemma QuotedStep(c: string, pos: nat, data: string, ch: char)
    requires Occurs(c, pos + 1, Escaped(ch)) && pos + 1 + |Escaped(ch)| < |c|
    ensures Quoted(c, pos, data) == Quoted(c, pos + |Escaped(ch)|, data + [ch])
  {
    var e := Escaped(ch);
    OccursAt(c, pos + 1, e, 0);
    OccursAt(c, pos + 1, e, |e| - 1);
  }

  /** Link text made of digits and colons is read up to what follows it. */
  lemma {:induction false} LinkBodyRoundTrip(t: string, c: string, pos: nat, data: string)
    requires Occurs(c, pos, t) && Follows(c, pos + |t|)
    requires forall i | 0 <= i < |t| :: t[i] == ':' || IsDigit(t[i])
    ensures LinkBody(c, pos, data) == Ok(Scan(data + t, pos + |t|))
    decreases t
  {
    if t == [] {
      assert data + t == data;
    } else {
      OccursHead(c, pos, t);
      assert t[0] == ':' || IsDigit(t[0]);
      assert LinkBody(c, pos, data) == LinkBody(c, pos + 1, data + [t[0]]);
      assert forall i | 0 <= i < |t[1..]| :: t[1..][i] == ':' || IsDigit(t[1..][i]) by {
        forall i | 0 <= i < |t[1..]| ensures t[1..][i] == ':' || IsDigit(t[1..][i]) {
          assert t[1..][i] == t[i + 1];
        }
      }
      assert (data + [t[0]]) + t[1..] == data + t && pos + 1 + |t[1..]| == pos + |t|;
      LinkBodyRoundTrip(t[1..], c, pos + 1, data + [t[0]]);
    }
  }

  /** The characters the bare-value loop collects. */
  predicate Numeral(ch: char)
  {
    IsDigit(ch) || ch == '.'
  }

  /** Where a run of digits and '.' starting at pos ends: the first other character, or
      the end of the content. */
  function NumeralEnd(c: string, pos: nat): (k: nat)
    ensures k >= pos
    ensures forall i | pos <= i < k :: i < |c| && Numeral(c[i])
    ensures k >= |c| || !Numeral(c[k])
    decreases Rem(c, pos)
  {
    if pos < |c| && Numeral(c[pos]) then
      var k := NumeralEnd(c, pos + 1);
      assert forall i | pos + 1 <= i < k :: i < |c| && Numeral(c[i]);
      k
    else pos
  }

  /** The whole bare-value loop, stated by where the run of digits and '.' ends: an INT
      there at ')', ']', ',' or the end; the type of a suffix letter, which is consumed;
      and "Invalid digit !" for any other character. */
  lemma {:induction false} PlainOutcome(c: string, pos: nat, data: string)
    ensures var k := NumeralEnd(c, pos);
            var run := data + Slice(c, pos, k);
            PlainBody(c, pos, data)
            == if k >= |c| || c[k] == ')' || c[k] == ']' || c[k] == ',' then Ok(Plain(Int, run, k))
               else if Suffix(c[k]).Some? then Ok(Plain(Suffix(c[k]).value, run, k + 1))
               else Err(Exception("add_property(): Invalid digit !"))
    decreases Rem(c, pos)
  {
    var k := NumeralEnd(c, pos);
    if pos < |c| && Numeral(c[pos]) {
      assert PlainBody(c, pos, data) == PlainBody(c, pos + 1, data + [c[pos]]);
      assert k == NumeralEnd(c, pos + 1);
      PlainOutcome(c, pos + 1, data + [c[pos]]);
      assert data + Slice(c, pos, k) == (data + [c[pos]]) + Slice(c, pos + 1, k) by {
        SliceCons(c, pos, k);
      }
    } else {
      assert k == pos && Slice(c, pos, k) == [] && data + Slice(c, pos, k) == data;
    }
  }

  lemma SliceCons(c: string, a: nat, b: nat)
    requires a < b && a < |c|
    ensures Slice(c, a, b) == [c[a]] + Slice(c, a + 1, b)
  {
    var s, t := Slice(c, a, b), [c[a]] + Slice(c, a + 1, b);
    forall i | 0 <= i < b - a
      ensures s[i] == t[i]
    {
      assert s[i] == At(c, a + i);
      if i > 0 {
        assert t[i] == Slice(c, a + 1, b)[i - 1] == At(c, a + 1 + (i - 1));
      }
    }
  }

  /** A run of digits and '.' is collected as it stands. */
  lemma {:induction false} NumeralRun(t: string, c: string, pos: nat, data: string)
    requires Occurs(c, pos, t)
    requires forall i | 0 <= i < |t| :: Numeral(t[i])
    ensures PlainBody(c, pos, data) == PlainBody(c, pos + |t|, data + t)
    decreases t
  {
    if t == [] {
      assert data + t == data;
    } else {
      OccursHead(c, pos, t);
      assert Numeral(t[0]);
      assert PlainBody(c, pos, data) == PlainBody(c, pos + 1, data + [t[0]]);
      assert forall i | 0 <= i < |t[1..]| :: Numeral(t[1..][i]) by {
        forall i | 0 <= i < |t[1..]| ensures Numeral(t[1..][i]) {
          assert t[1..][i] == t[i + 1];
        }
      }
      assert (data + [t[0]]) + t[1..] == data + t && pos + 1 + |t[1..]| == pos + |t|;
      NumeralRun(t[1..], c, pos + 1, data + [t[0]]);
    }
  }

  /** Decimal digits are read as an INT up to what follows them. */
  lemma PlainDigitsRoundTrip(t: string, c: string, pos: nat, data: string)
    requires Occurs(c, pos, t) && Follows(c, pos + |t|)
    requires forall i | 0 <= i < |t| :: IsDigit(t[i])
    ensures PlainBody(c, pos, data) == Ok(Plain(Int, data + t, pos + |t|))
  {
    NumeralRun(t, c, pos, data);
  }

  /** Digits followed by a suffix letter are read as the type the letter names, with the
      letter consumed and left out of the data. */
  lemma PlainSuffixRoundTrip(t: string, x: char, c: string, pos: nat, data: string)
    requires Occurs(c, pos, t + [x]) && Suffix(x).Some?
    requires forall i | 0 <= i < |t| :: IsDigit(t[i])
    ensures PlainBody(c, pos, data) == Ok(Plain(Suffix(x).value, data + t, pos + |t| + 1))
  {
    OccursSplit(c, pos, t, [x]);
    OccursAt(c, pos + |t|, [x], 0);
    NumeralRun(t, c, pos, data);
  }

  /** Any character that is not a digit, '.', a suffix letter, ')', ']' or ',' makes the
      bare-value loop fail, whatever digits came before it. */
  lemma PlainInvalid(t: string, c: string, pos: nat, data: string)
    requires Occurs(c, pos, t) && pos + |t| < |c|
    requires forall i | 0 <= i < |t| :: IsDigit(t[i])
    requires var ch := c[pos + |t|];
             !Numeral(ch) && Suffix(ch).None? && ch != ')' && ch != ']' && ch != ','
    ensures PlainBody(c, pos, data) == Err(Exception("add_property(): Invalid digit !"))
  {
    NumeralRun(t, c, pos, data);
  }

  /** A leading '-' is no digit: the bare-value branch rejects negative numbers. */
  lemma MinusRefused(c: string, p: nat, name: string)
    requires At(c, p) == '-'
    ensures AddProperty(c, p, name) == Err(Exception("add_property(): Invalid digit !"))
  {
    assert Scalar(c, p, name) == Err(Exception("add_property(): Invalid digit !"));
  }

  /** The first character of a rendered value selects the branch that reads it back. */
  lemma RenderLead(v: Value)
    ensures var ch := Render(v)[0];
      match v
      case QuotedText(_) => ch == '"'
      case LinkTo(_, _) => ch == '#'
      case Flag(b) => ch == (if b then 't' else 'f')
      case Number(_, _) => IsDigit(ch)
      case List(_) => ch == '['
  {
  }

  /** add_property at a '"': a string up to the closing quote. */
  lemma QuotedBranch(c: string, p: nat, name: string)
    requires p < |c| && c[p] == '"'
    ensures var q := Quoted(c, p, []);
            AddProperty(c, p, name) == Ok(Parsed(Property(name, Str, q.data, []), SkipComma(c, q.pos + 1)))
  {
  }

  /** add_property at a '#': a link read by the link loop. */
  lemma LinkBranch(c: string, p: nat, name: string, body: Scan)
    requires p < |c| && c[p] == '#' && LinkBody(c, p + 1, []) == Ok(body)
    ensures AddProperty(c, p, name) == Ok(Parsed(Property(name, Link, body.data, []), SkipComma(c, body.pos)))
  {
  }

  /** add_property at a 't' or an 'f': a boolean of four or five characters. */
  lemma FlagBranch(c: string, p: nat, name: string, width: nat)
    requires p < |c| && ((c[p] == 't' && width == 4) || (c[p] == 'f' && width == 5))
    ensures AddProperty(c, p, name) == Ok(Parsed(Property(name, Bool, Slice(c, p, p + width), []), SkipComma(c, p + width)))
  {
  }

  /** add_property at a digit: a number read by the digit loop. */
  lemma PlainBranch(c: string, p: nat, name: string, v: Plain)
    requires p < |c| && IsDigit(c[p]) && PlainBody(c, p, []) == Ok(v)
    ensures AddProperty(c, p, name) == Ok(Parsed(Property(name, v.ptype, v.data, []), SkipComma(c, v.pos)))
  {
    var ch := c[p];
    assert ch != '"' && ch != '#' && ch != 't' && ch != 'f' && ch != '[' && ch != '{' && ch != '(' && !Terminator(ch);
  }

  lemma TextLayout(v: Value, c: string, p: nat)
    requires v.QuotedText? && Occurs(c, p, Render(v)) && Follows(c, p + |Render(v)|)
    ensures var q := SafeQuote(v.s);
            p < |c| && c[p] == '"' && Occurs(c, p + 1, q) && p + 1 + |q| < |c| && c[p + 1 + |q|] == '"'
            && |Render(v)| == |q| + 2
  {
    var q := SafeQuote(v.s);
    assert Render(v) == "\"" + q + "\"";
    OccursSplit(c, p, "\"" + q, "\"");
    OccursSplit(c, p, "\"", q);
    OccursAt(c, p, "\"", 0);
    OccursAt(c, p + 1 + |q|, "\"", 0);
  }

  lemma TextRoundTrip(v: Value, c: string, p: nat, name: string)
    requires v.QuotedText? && Occurs(c, p, Render(v)) && Follows(c, p + |Render(v)|)
    ensures AddProperty(c, p, name) == Ok(Parsed(Meaning(v, name), SkipComma(c, p + |Render(v)|)))
  {
    var s := v.s;
    var close := p + 1 + |SafeQuote(s)|;
    TextLayout(v, c, p);
    assert Quoted(c, p, []) == Scan(s, close) by {
      QuotedRoundTrip(s, c, p, [], close);
      assert [] + s == s;
    }
    QuotedBranch(c, p, name);
    assert Meaning(v, name) == Property(name, Str, s, []);
  }

  lemma LinkLayout(a: nat, b: nat, c: string, p: nat)
    requires Occurs(c, p, Render(LinkTo(a, b))) && Follows(c, p + |Render(LinkTo(a, b))|)
    ensures var body := LinkText(a, b);
            p < |c| && c[p] == '#' && Occurs(c, p + 1, body) && Follows(c, p + 1 + |body|)
            && |Render(LinkTo(a, b))| == |body| + 1
  {
    var body := LinkText(a, b);
    OccursSplit(c, p, "#", body);
    OccursAt(c, p, "#", 0);
  }

  /** The text of a link is digits and one ':'. */
  lemma LinkTextChars(a: nat, b: nat)
    ensures var body := LinkText(a, b);
            forall i | 0 <= i < |body| :: body[i] == ':' || IsDigit(body[i])
  {
    var x, y := NatText(a), NatText(b);
    var body := LinkText(a, b);
    forall i | 0 <= i < |body|
      ensures body[i] == ':' || IsDigit(body[i])
    {
      if i < |x| {
        assert body[i] == x[i];
      } else if i > |x| {
        assert body[i] == y[i - |x| - 1];
      }
    }
  }

  /** The text of a link is read whole by the link loop. */
  lemma LinkTextRead(a: nat, b: nat, c: string, q: nat)
    requires Occurs(c, q, LinkText(a, b)) && Follows(c, q + |LinkText(a, b)|)
    ensures LinkBody(c, q, []) == Ok(Scan(LinkText(a, b), q + |LinkText(a, b)|))
  {
    var body := LinkText(a, b);
    LinkTextChars(a, b);
    LinkBodyRoundTrip(body, c, q, []);
    assert [] + body == body;
  }

  lemma LinkRoundTrip(v: Value, c: string, p: nat, name: string)
    requires v.LinkTo? && Occurs(c, p, Render(v)) && Follows(c, p + |Render(v)|)
    ensures AddProperty(c, p, name) == Ok(Parsed(Meaning(v, name), SkipComma(c, p + |Render(v)|)))
  {
    var a, b := v.cluster, v.position;
    var body := LinkText(a, b);
    LinkLayout(a, b, c, p);
    LinkTextRead(a, b, c, p + 1);
    LinkBranch(c, p, name, Scan(body, p + 1 + |body|));
  }

  lemma FlagRoundTrip(v: Value, c: string, p: nat, name: string)
    requires v.Flag? && Occurs(c, p, Render(v))
    ensures AddProperty(c, p, name) == Ok(Parsed(Meaning(v, name), SkipComma(c, p + |Render(v)|)))
  {
    var t := Render(v);
    OccursAt(c, p, t, 0);
    SliceInside(c, p, p + |t|);
    FlagBranch(c, p, name, |t|);
  }

  /** A written number reads back as its digits, typed by its letter or INT without one. */
  lemma NumberRoundTrip(v: Value, c: string, p: nat, name: string)
    requires v.Number? && Occurs(c, p, Render(v)) && Follows(c, p + |Render(v)|)
    ensures AddProperty(c, p, name) == Ok(Parsed(Meaning(v, name), SkipComma(c, p + |Render(v)|)))
  {
    var t := NatText(v.n);
    assert Render(v) == t + UnitText(v.unit) && Meaning(v, name) == Property(name, UnitType(v.unit), t, []);
    var e := p + |Render(v)|;
    assert p < |c| && IsDigit(c[p]) by {
      OccursAt(c, p, Render(v), 0);
    }
    assert PlainBody(c, p, []) == Ok(Plain(UnitType(v.unit), t, e)) by {
      NumberPlain(t, v.unit, c, p);
    }
    PlainBranch(c, p, name, Plain(UnitType(v.unit), t, e));
  }

  /** The bare-value loop over digits and an optional type letter. */
  lemma NumberPlain(t: string, unit: Option<SuffixLetter>, c: string, p: nat)
    requires forall i | 0 <= i < |t| :: IsDigit(t[i])
    requires Occurs(c, p, t + UnitText(unit)) && Follows(c, p + |t + UnitText(unit)|)
    ensures PlainBody(c, p, []) == Ok(Plain(UnitType(unit), t, p + |t + UnitText(unit)|))
  {
    assert [] + t == t;
    if unit.None? {
      assert t + UnitText(unit) == t;
      PlainDigitsRoundTrip(t, c, p, []);
    } else {
      PlainSuffixRoundTrip(t, unit.value, c, p, []);
    }
  }

  /** Every rendered value is read back as its meaning, and the comma after it is consumed. */
  lemma {:induction false} RenderRoundTrip(v: Value, c: string, p: nat, name: string)
    requires Occurs(c, p, Render(v)) && Follows(c, p + |Render(v)|)
    ensures AddProperty(c, p, name) == Ok(Parsed(Meaning(v, name), SkipComma(c, p + |Render(v)|)))
    decreases v, 2
  {
    if v.QuotedText? {
      TextRoundTrip(v, c, p, name);
    } else if v.LinkTo? {
      LinkRoundTrip(v, c, p, name);
    } else if v.Flag? {
      FlagRoundTrip(v, c, p, name);
    } else if v.Number? {
      NumberRoundTrip(v, c, p, name);
    } else {
      ListRoundTrip(v, c, p, name);
    }
  }

  lemma ListLayout(items: seq<Value>, c: string, p: nat)
    requires Occurs(c, p, Render(List(items))) && Follows(c, p + |Render(List(items))|)
    ensures var inner := RenderItems(items);
            p < |c| && At(c, p) == '[' && Occurs(c, p + 1, inner) && p + 1 + |inner| < |c|
            && c[p + 1 + |inner|] == ']' && |Render(List(items))| == |inner| + 2
  {
    var inner := RenderItems(items);
    assert Render(List(items)) == "[" + inner + "]";
    OccursSplit(c, p, "[" + inner, "]");
    OccursSplit(c, p, "[", inner);
    OccursAt(c, p, "[", 0);
    OccursAt(c, p + 1 + |inner|, "]", 0);
  }

  lemma {:induction false} ListRoundTrip(v: Value, c: string, p: nat, name: string)
    requires v.List? && Occurs(c, p, Render(v)) && Follows(c, p + |Render(v)|)
    ensures AddProperty(c, p, name) == Ok(Parsed(Meaning(v, name), SkipComma(c, p + |Render(v)|)))
    decreases v, 1
  {
    var items := v.items;
    var inner := RenderItems(items);
    assert Occurs(c, p + 1, inner) && p + 1 + |inner| < |c| && c[p + 1 + |inner|] == ']' by {
      ListLayout(items, c, p);
    }
    assert Elements(c, p + 1, []) == Ok(Items(Meanings(items), p + 1 + |inner|)) by {
      ItemsRoundTrip(items, c, p + 1, []);
      assert [] + Meanings(items) == Meanings(items);
    }
    ListFrom(v, c, p, name);
  }

  /** A written list whose items the collection loop reads back is read as a COLLECTION. */
  lemma ListFrom(v: Value, c: string, p: nat, name: string)
    requires v.List? && Occurs(c, p, Render(v)) && Follows(c, p + |Render(v)|)
    requires Elements(c, p + 1, []) == Ok(Items(Meanings(v.items), p + 1 + |RenderItems(v.items)|))
    ensures AddProperty(c, p, name) == Ok(Parsed(Meaning(v, name), SkipComma(c, p + |Render(v)|)))
  {
    ListText(v, name);
    ListLayout(v.items, c, p);
    CollectionOf(c, p, name, RenderItems(v.items), Meanings(v.items));
  }

  /** How a list is written and what it means. */
  lemma ListText(v: Value, name: string)
    requires v.List?
    ensures Render(v) == "[" + RenderItems(v.items) + "]"
    ensures Meaning(v, name) == Property(name, Collection, RenderItems(v.items), Meanings(v.items))
  {
  }

  /** A '[' whose elements end right before a ']' makes a collection of them, with the
      text between the brackets as its data. */
  lemma CollectionOf(c: string, p: nat, name: string, inner: string, elems: seq<Property>)
    requires Occurs(c, p + 1, inner) && p + 1 + |inner| < |c|
    requires At(c, p) == '[' && c[p + 1 + |inner|] == ']'
    requires Elements(c, p + 1, []) == Ok(Items(elems, p + 1 + |inner|))
    ensures AddProperty(c, p, name) == Ok(Parsed(Property(name, Collection, inner, elems), SkipComma(c, p + 2 + |inner|)))
  {
    var close := p + 1 + |inner|;
    CollectionBranch(c, p, name, Items(elems, close));
    SliceInside(c, p + 1, close);
  }

  lemma CollectionBranch(c: string, p: nat, name: string, items: Items)
    requires At(c, p) == '[' && Elements(c, p + 1, []) == Ok(items)
    ensures items.next >= p + 1
    ensures AddProperty(c, p, name)
            == Ok(Parsed(Property(name, Collection, Slice(c, p + 1, items.next), items.elems),
                         SkipComma(c, if At(c, items.next) == ']' then items.next + 1 else items.next)))
  {
  }

  lemma ElementsStep(c: string, p: nat, acc: seq<Property>, e: Parsed)
    requires p + 1 < |c| && !Terminator(c[p]) && AddProperty(c, p, []) == Ok(e)
    ensures Elements(c, p, acc) == Elements(c, e.next, acc + [e.prop])
  {
  }

  /** The collection loop stops at a ']'. */
  lemma ElementsEnd(c: string, p: nat, acc: seq<Property>)
    requires p < |c| && c[p] == ']'
    ensures Elements(c, p, acc) == Ok(Items(acc, p))
  {
  }

  /** One rendered value inside a list is read as an unnamed element. */
  lemma ElementValue(v: Value, c: string, p: nat, acc: seq<Property>)
    requires Occurs(c, p, Render(v)) && p + |Render(v)| < |c|
    requires c[p + |Render(v)|] == ',' || c[p + |Render(v)|] == ']'
    ensures Elements(c, p, acc) == Elements(c, SkipComma(c, p + |Render(v)|), acc + [Meaning(v, [])])
    decreases v, 3
  {
    var t := Render(v);
    RenderLead(v);
    OccursAt(c, p, t, 0);
    RenderRoundTrip(v, c, p, []);
    ElementsStep(c, p, acc, Parsed(Meaning(v, []), SkipComma(c, p + |t|)));
  }

  lemma SingleItem(items: seq<Value>)
    requires |items| == 1
    ensures RenderItems(items) == Render(items[0]) && Meanings(items) == [Meaning(items[0], [])]
  {
    assert Meanings(items[1..]) == [];
  }

  lemma MeaningsCons(items: seq<Value>, acc: seq<Property>)
    requires items != []
    ensures acc + Meanings(items) == (acc + [Meaning(items[0], [])]) + Meanings(items[1..])
  {
    assert Meanings(items) == [Meaning(items[0], [])] + Meanings(items[1..]);
  }

  /** The last value of a list is read up to the ']'. */
  lemma LastElement(v: Value, c: string, p: nat, acc: seq<Property>)
    requires Occurs(c, p, Render(v)) && p + |Render(v)| < |c| && c[p + |Render(v)|] == ']'
    ensures Elements(c, p, acc) == Ok(Items(acc + [Meaning(v, [])], p + |Render(v)|))
    decreases v, 4
  {
    ElementValue(v, c, p, acc);
    ElementsEnd(c, p + |Render(v)|, acc + [Meaning(v, [])]);
  }

  /** Where the first value of a list of two or more is written, and the rest after its comma. */
  lemma ItemsLayout(items: seq<Value>, c: string, p: nat)
    requires |items| > 1 && Occurs(c, p, RenderItems(items))
    ensures var t := Render(items[0]);
            Occurs(c, p, t) && c[p + |t|] == ',' && Occurs(c, p + |t| + 1, RenderItems(items[1..]))
            && |RenderItems(items)| == |t| + 1 + |RenderItems(items[1..])|
  {
    var t := Render(items[0]);
    var rest := RenderItems(items[1..]);
    OccursSplit(c, p, t, "," + rest);
    OccursSplit(c, p + |t|, ",", rest);
    OccursAt(c, p + |t|, ",", 0);
  }

  /** The values of a list, followed by its ']', are read back as their meanings, unnamed. */
  lemma {:induction false} ItemsRoundTrip(items: seq<Value>, c: string, p: nat, acc: seq<Property>)
    requires Occurs(c, p, RenderItems(items))
    requires p + |RenderItems(items)| < |c| && c[p + |RenderItems(items)|] == ']'
    ensures Elements(c, p, acc) == Ok(Items(acc + Meanings(items), p + |RenderItems(items)|))
    decreases items, 2
  {
    if items == [] {
      assert acc + [] == acc;
      ElementsEnd(c, p, acc);
    } else if |items| == 1 {
      OneItem(items, c, p, acc);
    } else {
      MoreItems(items, c, p, acc);
    }
  }

  /** A one-value list: the value is followed directly by the ']'. */
  lemma OneItem(items: seq<Value>, c: string, p: nat, acc: seq<Property>)
    requires |items| == 1 && Occurs(c, p, RenderItems(items))
    requires p + |RenderItems(items)| < |c| && c[p + |RenderItems(items)|] == ']'
    ensures Elements(c, p, acc) == Ok(Items(acc + Meanings(items), p + |RenderItems(items)|))
    decreases items, 1
  {
    SingleItem(items);
    LastElement(items[0], c, p, acc);
  }

  /** A longer list: the first value and its ',' are read, then the rest of the list. */
  lemma {:induction false} MoreItems(items: seq<Value>, c: string, p: nat, acc: seq<Property>)
    requires |items| > 1 && Occurs(c, p, RenderItems(items))
    requires p + |RenderItems(items)| < |c| && c[p + |RenderItems(items)|] == ']'
    ensures Elements(c, p, acc) == Ok(Items(acc + Meanings(items), p + |RenderItems(items)|))
    decreases items, 1
  {
    var v := items[0];
    var t := Render(v);
    var acc1 := acc + [Meaning(v, [])];
    var next := p + |t| + 1;
    var rest := RenderItems(items[1..]);
    var end := p + |RenderItems(items)|;
    assert Elements(c, p, acc) == Elements(c, next, acc1)
        && Occurs(c, next, rest) && next + |rest| == end by {
      ItemsLayout(items, c, p);
      ElementValue(v, c, p, acc);
    }
    assert next + |rest| < |c| && c[next + |rest|] == ']';
    ItemsRoundTrip(items[1..], c, next, acc1);
    assert acc1 + Meanings(items[1..]) == acc + Meanings(items) by {
      MeaningsCons(items, acc);
    }
  }

}
