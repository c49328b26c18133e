/** Records as the driver holds them (orient_record_t): the record kinds, the lazy
    parse of a document's content into a class name and named properties, and
    the accessors that trigger it. */
module Records {
  import opened Wrappers
  import opened Bytes
  import opened Text
  import opened Properties
  import opened Grammar

  // The record kinds (the type byte of a record).
  const NULL_RECORD: byte := 0
  const RECORD_ID: byte := 1
  const SERIALIZED_RECORD: byte := 2
  const DOCUMENT_RECORD: byte := 'd' as int
  const FLAT_DATA_RECORD: byte := 'f' as int
  const RAW_BYTES_RECORD: byte := 'b' as int

  /** A record: kind, id, version, raw content, and the parse results. */
  datatype Record = Record(
    rtype: byte,
    rid: Rid,
    version: int,
    content: string,
    parsed: bool,
    cls: string,
    props: map<string, Property>)

  /** A record wrapping a serialized (not yet typed) result. */
  function SerializedRecord(content: string): (r: Record)
    ensures r.rtype == SERIALIZED_RECORD && r.content == content && !r.parsed && !r.rid.valid
  {
    Record(SERIALIZED_RECORD, NO_RID, 0, content, false, [], map[])
  }

  /** A record that is only an id. */
  function RidRecord(id: s16, pos: s64): (r: Record)
    ensures r.rtype == RECORD_ID && r.rid == Rid(id, pos, true) && r.content == [] && !r.parsed
  {
    Record(RECORD_ID, Rid(id, pos, true), 0, [], false, [], map[])
  }

  /** A full record as the server sends it. */
  function FullRecord(rtype: byte, id: s16, pos: s64, version: s32, content: string): (r: Record)
    ensures r.rtype == rtype && r.rid == Rid(id, pos, true) && r.version == version
    ensures r.content == content && !r.parsed && r.cls == [] && r.props == map[]
  {
    Record(rtype, Rid(id, pos, true), version, content, false, [], map[])
  }

  /** The null record. */
  const NULL: Record := Record(NULL_RECORD, NO_RID, 0, [], false, [], map[])

  predicate IsDocument(r: Record)
  {
    r.rtype == DOCUMENT_RECORD
  }

  // ---- The parse loop ----

  /** The loop state: position, the name collected so far, and the record's class
      and properties as the loop updates them. */
  datatype ParseState = ParseState(pos: nat, name: string, cls: string, props: map<string, Property>)

  /** A loop result; on an error, the state holds what had been stored before it. */
  datatype Outcome = Outcome(state: ParseState, error: Option<Error>)

  /** std::map::insert: an existing key keeps its value. */
  function Insert(props: map<string, Property>, p: Property): (r: map<string, Property>)
    ensures r.Keys == props.Keys + {p.name}
    ensures forall k | k in props :: r[k] == props[k]
    ensures p.name !in props ==> r[p.name] == p
  {
    if p.name in props then props else props[p.name := p]
  }

  /** Every key of `before` is in `after` with its value. */
  predicate Keeps(before: map<string, Property>, after: map<string, Property>)
  {
    forall k | k in before :: k in after && after[k] == before[k]
  }

  /** The class is fixed once it is set or once a property has been stored. */
  predicate ClassSettled(before: ParseState, after: ParseState)
  {
    (before.cls != [] || before.props != map[]) ==> after.cls == before.cls
  }

  /** One pass of the do-while body: take the collected name as the class at an '@'
      seen before anything was stored; at a ':' read a value under the collected
      name; otherwise collect the character, unless it is one of ")],*". */
  function Step(c: string, s: ParseState): (o: Outcome)
    ensures o.state.pos >= s.pos
    ensures o.error.None? && o.state.pos == s.pos ==> o.state == s
    ensures o == Outcome(s, None) <==> Terminator(At(c, s.pos))
    ensures Keeps(s.props, o.state.props) && ClassSettled(s, o.state)
  {
    var s1 := if s.props == map[] && s.cls == [] && At(c, s.pos) == '@'
              then s.(cls := s.name, name := [], pos := s.pos + 1) else s;
    var ch := At(c, s1.pos);
    if ch == ':' then
      match AddProperty(c, s1.pos + 1, s1.name)
      case Err(e) => Outcome(s1, Some(e))
      case Ok(added) => Outcome(s1.(pos := added.next, name := [], props := Insert(s1.props, added.prop)), None)
    else if !Terminator(ch) then
      Outcome(s1.(name := s1.name + [ch], pos := s1.pos + 1), None)
    else Outcome(s1, None)
  }

  /** content[pos - 1]; position 0 reads as NUL. */
  function Prev(c: string, pos: nat): char
  {
    if pos == 0 then '\0' else At(c, pos - 1)
  }

  /** The loop test: more content, and the last character consumed was not ')' or '*'. */
  predicate Continue(c: string, s: ParseState)
  {
    s.pos < |c| && Prev(c, s.pos) != ')' && Prev(c, s.pos) != '*'
  }

  /** The loop as written, run for at most `fuel` passes; None when the fuel runs out. */
  function LoopAsWritten(c: string, s: ParseState, fuel: nat): (o: Option<Outcome>)
    decreases fuel
  {
    if fuel == 0 then None
    else
      var o := Step(c, s);
      if o.error.None? && Continue(c, o.state) then LoopAsWritten(c, o.state, fuel - 1)
      else Some(o)
  }

  /** The loop, also ending when a pass makes no progress: at ')', ']', ',' or '*' the
      body changes nothing, and the loop as written would repeat it forever. */
  function Loop(c: string, s: ParseState): (o: Outcome)
    ensures Keeps(s.props, o.state.props) && ClassSettled(s, o.state)
    ensures o.error.None? ==> !Continue(c, o.state) || Terminator(At(c, o.state.pos))
    decreases Rem(c, s.pos)
  {
    var o := Step(c, s);
    if o.error.None? && Continue(c, o.state) && o.state.pos > s.pos then
      Loop(c, o.state)
    else o
  }

  /** Wherever the loop as written ends, the loop ends with the same outcome. */
  lemma {:induction false} AsWrittenAgrees(c: string, s: ParseState, fuel: nat)
    requires LoopAsWritten(c, s, fuel).Some?
    ensures Loop(c, s) == LoopAsWritten(c, s, fuel).value
    decreases fuel
  {
    var o := Step(c, s);
    if o.error.None? && Continue(c, o.state) {
      AsWrittenAgrees(c, o.state, fuel - 1);
      if o.state.pos == s.pos {
        assert o.state == s;
      }
    }
  }

  /** Where the loop ends anywhere but at one of ")],*", the loop as written ends there too,
      within one pass per remaining character. */
  lemma {:induction false} AsWrittenEnds(c: string, s: ParseState)
    requires Loop(c, s).error.Some? || !Continue(c, Loop(c, s).state)
    ensures LoopAsWritten(c, s, Rem(c, s.pos) + 1) == Some(Loop(c, s))
    decreases Rem(c, s.pos)
  {
    var o := Step(c, s);
    var fuel := Rem(c, s.pos) + 1;
    if o.error.None? && Continue(c, o.state) {
      if o.state.pos > s.pos {
        assert Loop(c, s) == Loop(c, o.state);
        AsWrittenEnds(c, o.state);
        AsWrittenMoreFuel(c, o.state, Rem(c, o.state.pos) + 1, fuel - 1);
        assert LoopAsWritten(c, s, fuel) == LoopAsWritten(c, o.state, fuel - 1);
      }
    } else {
      assert LoopAsWritten(c, s, fuel) == Some(o);
    }
  }

  lemma {:induction false} AsWrittenMoreFuel(c: string, s: ParseState, fuel: nat, more: nat)
    requires LoopAsWritten(c, s, fuel).Some? && fuel <= more
    ensures LoopAsWritten(c, s, more) == LoopAsWritten(c, s, fuel)
    decreases fuel
  {
    var o := Step(c, s);
    if o.error.None? && Continue(c, o.state) {
      AsWrittenMoreFuel(c, o.state, fuel - 1, more - 1);
    }
  }

  /** From a state at ')', ']', ',' or '*' that passes the loop test, the loop as written never ends. */
  lemma {:induction false} AsWrittenSpins(c: string, s: ParseState, fuel: nat)
    requires Terminator(At(c, s.pos)) && Continue(c, s)
    ensures LoopAsWritten(c, s, fuel) == None
    decreases fuel
  {
    if fuel > 0 {
      AsWrittenSpins(c, s, fuel - 1);
    }
  }

  const START := ParseState(0, [], [], map[])

  /** "a:1)": after the property a, the ')' is never consumed and the character before
      it is '1', so the loop as written repeats forever; the loop stops with a stored. */
  lemma ClosingParenSpins(fuel: nat)
    ensures LoopAsWritten("a:1)", START, fuel) == None
    ensures Loop("a:1)", START) == Outcome(ParseState(3, [], [], map["a" := Property("a", Int, "1", [])]), None)
  {
    var c := "a:1)";
    var s1 := ParseState(1, "a", [], map[]);
    assert Step(c, START) == Outcome(s1, None);
    var one := Property("a", Int, "1", []);
    assert PlainBody(c, 3, "1") == Ok(Plain(Int, "1", 3));
    assert c[2] == '1' && [] + [c[2]] == "1";
    assert PlainBody(c, 2, []) == Ok(Plain(Int, "1", 3));
    assert AddProperty(c, 2, "a") == Ok(Parsed(one, 3));
    var s2 := ParseState(3, [], [], map["a" := one]);
    assert Step(c, s1) == Outcome(s2, None);
    assert Terminator(At(c, s2.pos)) && Continue(c, s2);
    if fuel > 1 {
      AsWrittenSpins(c, s2, fuel - 2);
    }
  }

  // ---- Parsing a record ----

  datatype Parsing = Parsing(rec: Record, error: Option<Error>)

  /** parse(): a parsed record or one that is not a document is left alone. Otherwise the
      content is read from position 0 into the record's class and properties; the record
      is marked parsed only when no value failed to read, and keeps what was stored
      before a failure. */
  function Parse(r: Record): (o: Parsing)
    ensures r.parsed || !IsDocument(r) ==> o == Parsing(r, None)
    ensures o.rec.rtype == r.rtype && o.rec.rid == r.rid && o.rec.version == r.version && o.rec.content == r.content
    ensures o.rec.parsed <==> r.parsed || (IsDocument(r) && o.error.None?)
    ensures o.error.None? ==> o.rec.parsed || !IsDocument(o.rec)
    ensures Keeps(r.props, o.rec.props)
    ensures r.cls != [] || r.props != map[] ==> o.rec.cls == r.cls
  {
    if r.parsed || !IsDocument(r) then Parsing(r, None)
    else
      var out := Loop(r.content, ParseState(0, [], r.cls, r.props));
      var r1 := r.(cls := out.state.cls, props := out.state.props);
      if out.error.Some? then Parsing(r1, out.error) else Parsing(r1.(parsed := true), None)
  }

  /** A successful parse is not repeated. */
  lemma ParseOnce(r: Record)
    requires Parse(r).error.None?
    ensures Parse(Parse(r).rec) == Parsing(Parse(r).rec, None)
  {
  }

  /** The outcome of an accessor: the record after its parse, and the answer. */
  datatype Access<+T> = Access(rec: Record, result: Result<T>)

  /** has_property. */
  function HasProperty(r: Record, n: string): (a: Access<bool>)
    ensures a.rec == Parse(r).rec
    ensures Parse(r).error.Some? ==> a.result == Err(Parse(r).error.value)
    ensures Parse(r).error.None? ==> a.result == Ok(n in a.rec.props)
  {
    var p := Parse(r);
    if p.error.Some? then Access(p.rec, Err(p.error.value)) else Access(p.rec, Ok(n in p.rec.props))
  }

  /** get_property: the stored property, or "No such property: " and the name. */
  function GetProperty(r: Record, n: string): (a: Access<Property>)
    ensures a.rec == Parse(r).rec
    ensures a.result.Ok? <==> Parse(r).error.None? && n in a.rec.props
    ensures a.result.Ok? ==> a.result.value == a.rec.props[n]
    ensures Parse(r).error.None? && n !in a.rec.props ==> a.result == Err(Exception("No such property: " + n))
  {
    var p := Parse(r);
    if p.error.Some? then Access(p.rec, Err(p.error.value))
    else if n !in p.rec.props then Access(p.rec, Err(Exception("No such property: " + n)))
    else Access(p.rec, Ok(p.rec.props[n]))
  }

  /** get_property agrees with has_property. */
  lemma GetAgreesWithHas(r: Record, n: string)
    ensures GetProperty(r, n).rec == HasProperty(r, n).rec
    ensures GetProperty(r, n).result.Ok? <==> HasProperty(r, n).result == Ok(true)
  {
  }

  /** classof. */
  function ClassOf(r: Record): (a: Access<string>)
    ensures a.rec == Parse(r).rec
    ensures a.result.Ok? <==> Parse(r).error.None?
    ensures a.result.Ok? ==> a.result.value == a.rec.cls
  {
    var p := Parse(r);
    if p.error.Some? then Access(p.rec, Err(p.error.value)) else Access(p.rec, Ok(p.rec.cls))
  }

  /** The record as text: the content of a serialized or document record, "#id:pos" for an
      id, "null" for anything else. */
  function RecordText(r: Record): string
  {
    if r.rtype == SERIALIZED_RECORD || r.rtype == DOCUMENT_RECORD then r.content
    else if r.rtype == RECORD_ID then "#" + Itoa(r.rid.id) + ":" + Itoa(r.rid.pos)
    else "null"
  }

  /** operator string, case by case: a serialized or document record prints as its
      content, an id record as its id's '#' form, and every other kind as "null". */
  lemma RecordTextCases(r: Record, id: s16, pos: s64, version: s32, s: string)
    ensures RecordText(SerializedRecord(s)) == s
    ensures RecordText(FullRecord(DOCUMENT_RECORD, id, pos, version, s)) == s
    ensures RecordText(RidRecord(id, pos)) == RidText(Rid(id, pos, true))
    ensures RecordText(NULL) == "null"
    ensures r.rtype == SERIALIZED_RECORD || r.rtype == DOCUMENT_RECORD ==> RecordText(r) == r.content
    ensures r.rtype == RECORD_ID ==> RecordText(r) == RidText(r.rid.(valid := true))
    ensures r.rtype != SERIALIZED_RECORD && r.rtype != DOCUMENT_RECORD && r.rtype != RECORD_ID ==>
              RecordText(r) == "null"
  {
  }

  // ---- Documents as a serializer writes them ----

  /** A named value of a document. */
  datatype Entry = Entry(name: string, value: Value)

  /** A class or property name the parse loop collects whole: no ':', no '@', and none
      of ")],*". */
  predicate NameText(n: string)
  {
    forall i | 0 <= i < |n| :: n[i] != ':' && n[i] != '@' && !Terminator(n[i])
  }

  predicate NamesText(es: seq<Entry>)
  {
    forall i | 0 <= i < |es| :: NameText(es[i].name)
  }

  function EntryText(e: Entry): string
  {
    e.name + ":" + Render(e.value)
  }

  /** The entries separated by commas. */
  function EntriesText(es: seq<Entry>): string
  {
    if es == [] then ""
    else if |es| == 1 then EntryText(es[0])
    else EntryText(es[0]) + "," + EntriesText(es[1..])
  }

  /** A document's content: "class@" when there is a class, then the entries. */
  function DocumentText(cls: string, es: seq<Entry>): string
  {
    (if cls == [] then [] else cls + "@") + EntriesText(es)
  }

  /** The properties after storing each entry in turn; of equal names the first is kept. */
  function Stored(props: map<string, Property>, es: seq<Entry>): map<string, Property>
    decreases es
  {
    if es == [] then props else Stored(Insert(props, Meaning(es[0].value, es[0].name)), es[1..])
  }

  /** A pass over a name character collects it. */
  lemma CollectStep(c: string, s: ParseState)
    requires s.pos < |c| && c[s.pos] != ':' && c[s.pos] != '@' && !Terminator(c[s.pos])
    ensures Step(c, s) == Outcome(s.(pos := s.pos + 1, name := s.name + [c[s.pos]]), None)
  {
  }

  /** The first character of a written name, and where the rest of it is written. */
  lemma NameHead(c: string, p: nat, n: string)
    requires NameText(n) && Occurs(c, p, n) && n != []
    ensures p < |c| && c[p] == n[0] && c[p] != ':' && c[p] != '@' && !Terminator(c[p])
    ensures NameText(n[1..]) && Occurs(c, p + 1, n[1..])
  {
    OccursAt(c, p, n, 0);
    assert n == [n[0]] + n[1..];
    OccursSplit(c, p, [n[0]], n[1..]);
  }

  /** The passes over a written name collect it and nothing else. */
  lemma {:induction false} NameSteps(c: string, s: ParseState, n: string, t: ParseState)
    requires NameText(n) && Occurs(c, s.pos, n) && s.pos + |n| < |c|
    requires t == ParseState(s.pos + |n|, s.name + n, s.cls, s.props)
    ensures Loop(c, s) == Loop(c, t)
    decreases n
  {
    if n == [] {
      assert s.name + n == s.name;
    } else {
      NameHead(c, s.pos, n);
      var s1 := ParseState(s.pos + 1, s.name + [n[0]], s.cls, s.props);
      assert s1.name + n[1..] == s.name + n;
      NameSteps(c, s1, n[1..], t);
      CollectStep(c, s);
      Progress(c, s);
    }
  }

  /** The ':' pass: the value after it is stored under the collected name, and the loop
      test decides what follows. */
  lemma ValuePass(c: string, s: ParseState, v: Value, s3: ParseState)
    requires s.pos < |c| && c[s.pos] == ':' && Occurs(c, s.pos + 1, Render(v))
    requires Follows(c, s.pos + 1 + |Render(v)|)
    requires s3 == ParseState(SkipComma(c, s.pos + 1 + |Render(v)|), [], s.cls, Insert(s.props, Meaning(v, s.name)))
    ensures Loop(c, s) == if Continue(c, s3) then Loop(c, s3) else Outcome(s3, None)
  {
    RenderRoundTrip(v, c, s.pos + 1, s.name);
    ColonStep(c, s, Parsed(Meaning(v, s.name), s3.pos));
    Progress(c, s);
  }

  /** A pass at a ':' whose value reads without error stores it and moves past it. */
  lemma ColonStep(c: string, s: ParseState, a: Parsed)
    requires At(c, s.pos) == ':' && AddProperty(c, s.pos + 1, s.name) == Ok(a)
    ensures Step(c, s) == Outcome(ParseState(a.next, [], s.cls, Insert(s.props, a.prop)), None)
    ensures a.next > s.pos
  {
  }

  /** The loop state after one entry and the comma behind it. */
  function AfterEntry(c: string, s: ParseState, e: Entry): ParseState
  {
    s.(pos := SkipComma(c, s.pos + |EntryText(e)|), name := [], props := Insert(s.props, Meaning(e.value, e.name)))
  }

  /** Where an entry is written: its name, the ':' and its value, which something may follow. */
  lemma EntryLayout(c: string, p: nat, e: Entry)
    requires NameText(e.name) && Occurs(c, p, EntryText(e)) && Follows(c, p + |EntryText(e)|)
    ensures p + |e.name| < |c| && c[p + |e.name|] == ':' && Occurs(c, p, e.name)
    ensures Occurs(c, p + |e.name| + 1, Render(e.value))
    ensures Follows(c, p + |e.name| + 1 + |Render(e.value)|)
  {
    var k := |e.name|;
    OccursSplit(c, p, e.name + ":", Render(e.value));
    OccursSplit(c, p, e.name, ":");
    OccursAt(c, p + k, ":", 0);
  }

  /** The passes over an entry's name bring the loop to its ':'. */
  lemma EntryName(c: string, s: ParseState, e: Entry)
    requires s.name == [] && NameText(e.name)
    requires Occurs(c, s.pos, EntryText(e)) && Follows(c, s.pos + |EntryText(e)|)
    ensures Loop(c, s) == Loop(c, ParseState(s.pos + |e.name|, e.name, s.cls, s.props))
  {
    EntryLayout(c, s.pos, e);
    assert s.name + e.name == e.name;
    NameSteps(c, s, e.name, ParseState(s.pos + |e.name|, e.name, s.cls, s.props));
  }

  /** The ':' pass of an entry stores its value and steps over its comma. */
  lemma EntryValue(c: string, s: ParseState, e: Entry)
    requires s.name == [] && NameText(e.name)
    requires Occurs(c, s.pos, EntryText(e)) && Follows(c, s.pos + |EntryText(e)|)
    ensures var s3 := AfterEntry(c, s, e);
            Loop(c, ParseState(s.pos + |e.name|, e.name, s.cls, s.props))
              == if Continue(c, s3) then Loop(c, s3) else Outcome(s3, None)
  {
    EntryLayout(c, s.pos, e);
    assert |EntryText(e)| == |e.name| + 1 + |Render(e.value)|;
    ValuePass(c, ParseState(s.pos + |e.name|, e.name, s.cls, s.props), e.value, AfterEntry(c, s, e));
  }

  /** The passes over one written entry store it and step over its comma. */
  lemma EntryPass(c: string, s: ParseState, e: Entry)
    requires s.name == [] && NameText(e.name)
    requires Occurs(c, s.pos, EntryText(e)) && Follows(c, s.pos + |EntryText(e)|)
    ensures var s3 := AfterEntry(c, s, e);
            Loop(c, s) == if Continue(c, s3) then Loop(c, s3) else Outcome(s3, None)
  {
    EntryValue(c, s, e);
    EntryName(c, s, e);
  }

  /** A pass that moves on without an error hands over to the loop test. */
  lemma Progress(c: string, s: ParseState)
    requires Step(c, s).error.None? && Step(c, s).state.pos > s.pos
    ensures var o := Step(c, s);
            Loop(c, s) == if Continue(c, o.state) then Loop(c, o.state) else o
  {
  }

  /** A run of entries that ends the content is stored, in order, with no error. */
  lemma {:induction false} EntriesLoop(c: string, s: ParseState, es: seq<Entry>)
    requires es != [] && NamesText(es) && s.name == []
    requires Occurs(c, s.pos, EntriesText(es)) && s.pos + |EntriesText(es)| == |c|
    ensures Loop(c, s) == Outcome(s.(pos := |c|, props := Stored(s.props, es)), None)
    decreases es, 1
  {
    if |es| == 1 {
      LastEntry(c, s, es);
    } else {
      MoreEntries(c, s, es);
    }
  }

  /** The last entry runs to the end of the content, where the loop stops. */
  lemma LastEntry(c: string, s: ParseState, es: seq<Entry>)
    requires |es| == 1 && NamesText(es) && s.name == []
    requires Occurs(c, s.pos, EntriesText(es)) && s.pos + |EntriesText(es)| == |c|
    ensures Loop(c, s) == Outcome(s.(pos := |c|, props := Stored(s.props, es)), None)
  {
    var e := es[0];
    assert NameText(e.name);
    var s3 := AfterEntry(c, s, e);
    assert EntriesText(es) == EntryText(e);
    EntryPass(c, s, e);
    assert Stored(s.props, es) == Stored(s3.props, []);
  }

  /** An entry followed by a ',' hands the rest of the entries to the next pass. */
  lemma {:induction false} MoreEntries(c: string, s: ParseState, es: seq<Entry>)
    requires |es| > 1 && NamesText(es) && s.name == []
    requires Occurs(c, s.pos, EntriesText(es)) && s.pos + |EntriesText(es)| == |c|
    ensures Loop(c, s) == Outcome(s.(pos := |c|, props := Stored(s.props, es)), None)
    decreases es, 0
  {
    var e := es[0];
    var s3 := AfterEntry(c, s, e);
    assert Loop(c, s) == Loop(c, s3) && NamesText(es[1..])
        && Occurs(c, s3.pos, EntriesText(es[1..])) && s3.pos + |EntriesText(es[1..])| == |c| by {
      EntriesSplit(c, s.pos, es);
      EntryPass(c, s, e);
    }
    EntriesLoop(c, s3, es[1..]);
    assert Stored(s.props, es) == Stored(s3.props, es[1..]);
  }

  /** Where the first of two or more written entries ends, and the rest begin. */
  lemma EntriesSplit(c: string, p: nat, es: seq<Entry>)
    requires |es| > 1 && NamesText(es)
    requires Occurs(c, p, EntriesText(es)) && p + |EntriesText(es)| == |c|
    ensures var t := EntryText(es[0]);
            var rest := EntriesText(es[1..]);
            NameText(es[0].name) && Occurs(c, p, t) && Follows(c, p + |t|) && At(c, p + |t|) == ','
            && Occurs(c, p + |t| + 1, rest) && p + |t| + 1 + |rest| == |c| && p + |t| + 1 < |c|
            && NamesText(es[1..])
  {
    var t := EntryText(es[0]);
    var rest := EntriesText(es[1..]);
    assert NameText(es[0].name);
    assert EntriesText(es) == (t + ",") + rest;
    OccursSplit(c, p, t + ",", rest);
    OccursSplit(c, p, t, ",");
    OccursAt(c, p + |t|, ",", 0);
    assert |EntryText(es[1])| > 0;
    assert NamesText(es[1..]) by {
      forall i | 0 <= i < |es[1..]| ensures NameText(es[1..][i].name) {
        assert es[1..][i] == es[i + 1];
      }
    }
  }

  /** The '@' pass: once the class is taken from the collected name, the pass goes on as
      a pass from the position after the '@'. */
  lemma ClassPass(c: string, s: ParseState)
    requires s.props == map[] && s.cls == [] && s.name != [] && At(c, s.pos) == '@'
    requires !Terminator(At(c, s.pos + 1))
    ensures Loop(c, s) == Loop(c, s.(cls := s.name, name := [], pos := s.pos + 1))
  {
    var s1 := s.(cls := s.name, name := [], pos := s.pos + 1);
    assert Step(c, s) == Step(c, s1);
  }

  /** The loop over a written document reads its class and stores its entries. */
  lemma DocumentLoop(cls: string, es: seq<Entry>)
    requires NameText(cls) && NamesText(es) && es != []
    ensures var c := DocumentText(cls, es);
            Loop(c, START) == Outcome(ParseState(|c|, [], cls, Stored(map[], es)), None)
  {
    if cls == [] {
      var c := DocumentText(cls, es);
      assert c == EntriesText(es);
      EntriesLoop(c, START, es);
    } else {
      ClassLoop(cls, es);
    }
  }

  /** Written entries start with a character that is not one of ")],*". */
  lemma EntriesHead(es: seq<Entry>)
    requires NamesText(es) && es != []
    ensures |EntriesText(es)| > 0 && !Terminator(EntriesText(es)[0])
  {
    var e := es[0];
    assert NameText(e.name);
    var t := EntryText(e);
    assert EntriesText(es)[..|t|] == t;
    if e.name == [] {
      assert t[0] == ':';
    } else {
      assert t[0] == e.name[0];
    }
  }

  /** Where the class, its '@' and the entries of a document are written. */
  lemma ClassLayout(cls: string, es: seq<Entry>)
    requires cls != [] && NamesText(es) && es != []
    ensures var c := DocumentText(cls, es);
            var k := |cls|;
            var body := EntriesText(es);
            Occurs(c, 0, cls) && c[k] == '@' && Occurs(c, k + 1, body) && k + 1 + |body| == |c|
            && !Terminator(At(c, k + 1))
  {
    var c := DocumentText(cls, es);
    var k := |cls|;
    var body := EntriesText(es);
    assert c == (cls + "@") + body;
    OccursSplit(c, 0, cls + "@", body);
    OccursSplit(c, 0, cls, "@");
    OccursAt(c, k, "@", 0);
    EntriesHead(es);
    OccursAt(c, k + 1, body, 0);
  }

  /** A document with a class: the name passes collect it, the '@' pass takes it as the
      class, and the entries follow. */
  lemma ClassLoop(cls: string, es: seq<Entry>)
    requires cls != [] && NameText(cls) && NamesText(es) && es != []
    ensures var c := DocumentText(cls, es);
            Loop(c, START) == Outcome(ParseState(|c|, [], cls, Stored(map[], es)), None)
  {
    var c := DocumentText(cls, es);
    var k := |cls|;
    ClassLayout(cls, es);
    assert [] + cls == cls;
    var s1 := ParseState(k, cls, [], map[]);
    NameSteps(c, START, cls, s1);
    ClassPass(c, s1);
    EntriesLoop(c, ParseState(k + 1, [], cls, map[]), es);
  }

  /** Parsing a written document yields its class and its entries, each read back as its
      meaning under its name, and marks the record parsed. */
  lemma DocumentRoundTrip(cls: string, es: seq<Entry>, id: s16, pos: s64, version: s32)
    requires NameText(cls) && NamesText(es) && es != []
    ensures var r := FullRecord(DOCUMENT_RECORD, id, pos, version, DocumentText(cls, es));
            Parse(r) == Parsing(r.(parsed := true, cls := cls, props := Stored(map[], es)), None)
  {
    DocumentLoop(cls, es);
  }
}
