/** orientquery::execute and the record decoding behind it: the query text, the class
    tag a command is sent under, the COMMAND body, the payload-status dispatch, the
    record-header dispatch, insert_id, and the reopen-and-run-again retry. */
module Executor {
  import opened Wrappers
  import opened Bytes
  import opened Text
  import opened Frame
  import opened Response
  import opened Records
  import opened Retry
  import opened Connection

  // The query kinds, in the order the driver's enum lists them.
  const AS_SQL: int := 0
  const AS_JAVASCRIPT: int := 1
  const AS_ECMASCRIPT: int := 2
  const AS_GREMLIN: int := 3
  const AS_GROOVY: int := 4
  const AS_GREMLIN_GROOVY: int := 5

  const SQL_QUERY := "q"
  const SQL_COMMAND := "c"
  const SCRIPT := "s"
  const GREMLIN_CLASS := "com.orientechnologies.orient.graph.gremlin.OCommandGremlin"
  const JAVASCRIPT := "javascript"
  const SYNC_MODE: byte := 's' as int

  const UNSUPPORTED_LANGUAGE := "Unsupported script language !"

  // ---- The query text ----

  /** The query object: its text, whether it is prepared, the text streamed into it,
      and the id of the last record created. */
  datatype Query = Query(q: string, prepared: bool, buf: string, insertId: Record)

  /** The text an execute runs: a prepared query keeps its text; otherwise the text
      passed in (as a C string) wins, then the streamed text if there is any, and the
      stream is emptied either way. */
  function QueryText(st: Query, qs: Option<string>): (o: Query)
    ensures o.prepared == st.prepared && o.insertId == st.insertId
    ensures st.prepared ==> o == st
    ensures !st.prepared ==> o.buf == []
    ensures !st.prepared && qs.Some? ==> o.q == CStr(qs.value)
    ensures !st.prepared && qs.None? ==> o.q == (if st.buf != [] then st.buf else st.q)
  {
    if st.prepared then st
    else
      var q := if qs.Some? then CStr(qs.value) else if st.buf != [] then st.buf else st.q;
      st.(q := q, buf := [])
  }

  /** The second run after a lost connection picks the same text: choosing twice is
      choosing once. */
  lemma QueryTextAgain(st: Query, qs: Option<string>)
    ensures QueryText(QueryText(st, qs), qs) == QueryText(st, qs)
  {
  }

  // ---- The command class ----

  /** The class a command is sent under: for SQL, the query class when the text starts
      with "select" in any case and the command class otherwise; "s" for JavaScript;
      Gremlin's own class; no other kind is supported. */
  function CommandClass(q: string, queryType: int): (r: Result<string>)
    ensures r.Err? <==> queryType != AS_SQL && queryType != AS_JAVASCRIPT && queryType != AS_GREMLIN
    ensures r.Err? ==> r.error == Exception(UNSUPPORTED_LANGUAGE)
    ensures r == Ok(SQL_QUERY) <==> queryType == AS_SQL && StartsWithNoCase(q, "select")
    ensures r == Ok(SQL_COMMAND) <==> queryType == AS_SQL && !StartsWithNoCase(q, "select")
  {
    if queryType == AS_SQL then
      Ok(if StartsWithNoCase(q, "select") then SQL_QUERY else SQL_COMMAND)
    else if queryType == AS_JAVASCRIPT then Ok(SCRIPT)
    else if queryType == AS_GREMLIN then Ok(GREMLIN_CLASS)
    else Err(Exception(UNSUPPORTED_LANGUAGE))
  }

  /** The class tells the query kind apart: two accepted commands with the same class
      are of the same kind. */
  lemma ClassNamesKind(q1: string, t1: int, q2: string, t2: int)
    requires CommandClass(q1, t1).Ok? && CommandClass(q1, t1) == CommandClass(q2, t2)
    ensures t1 == t2
  {
  }

  /** The class does not depend on letter case. */
  lemma ClassIgnoresCase(q1: string, q2: string, queryType: int)
    requires |q1| == |q2| && forall i | 0 <= i < |q1| :: Lower(q1[i]) == Lower(q2[i])
    ensures CommandClass(q1, queryType) == CommandClass(q2, queryType)
  {
  }

  // ---- The COMMAND body ----

  /** The serialized command: class, the language for JavaScript, the text, the
      non-text limit -1, and an empty parameter set (0). */
  function Command(cls: string, queryType: int, q: string): seq<byte>
  {
    var b1 := Field(cls);
    var b2 := if queryType == AS_JAVASCRIPT then AppendString(b1, JAVASCRIPT) else b1;
    AppendS32(AppendS32(AppendString(b2, q), -1), 0)
  }

  /** The COMMAND body: the synchronous mode byte, then the command as a blob. */
  function CommandBody(cls: string, queryType: int, q: string): seq<byte>
  {
    AppendBlob(AppendU8([], SYNC_MODE), Command(cls, queryType, q))
  }

  /** The fields of a command, in order. */
  lemma CommandLayout(cls: string, queryType: int, q: string)
    requires Fits(cls) && Fits(q)
    ensures Command(cls, queryType, q)
            == Field(cls) + (if queryType == AS_JAVASCRIPT then Field(JAVASCRIPT) else [])
               + Field(q) + AppendS32([], -1) + AppendS32([], 0)
  {
    var b1 := Field(cls);
    var lang := if queryType == AS_JAVASCRIPT then Field(JAVASCRIPT) else [];
    var b2 := if queryType == AS_JAVASCRIPT then AppendString(b1, JAVASCRIPT) else b1;
    assert b2 == b1 + lang by {
      AppendField(b1, JAVASCRIPT);
    }
    var b3 := AppendString(b2, q);
    assert b3 == b2 + Field(q) by {
      AppendField(b2, q);
    }
    var b4 := AppendS32(b3, -1);
    S32Tail(b3, -1);
    S32Tail(b4, 0);
  }

  /** append(s32) on a buffer writes the bytes it writes alone. */
  lemma S32Tail(buf: seq<byte>, v: s32)
    ensures AppendS32(buf, v) == buf + AppendS32([], v)
  {
    var r := AppendS32(buf, v);
    assert r == r[..|buf|] + r[|buf|..];
    var w := AppendS32([], v);
    assert w[0..] == w;
    assert Value(r[|buf|..]) == Value(w) by {
      Pow256Values();
      UnsignedOfSigned(Value(r[|buf|..]), 4);
      UnsignedOfSigned(Value(w), 4);
    }
    BigEndianOfValue(r[|buf|..]);
    BigEndianOfValue(w);
  }

  /** The body is 's' and then the command's length and bytes; the command is never
      empty, since its two s32 fields alone take eight bytes. */
  lemma CommandBodyLayout(cls: string, queryType: int, q: string)
    requires |Command(cls, queryType, q)| < 0x1_0000_0000
    ensures var cmd := Command(cls, queryType, q);
            |cmd| >= 8 && CommandBody(cls, queryType, q) == [SYNC_MODE] + BigEndian(|cmd|, 4) + cmd
  {
  }

  // ---- Records on the wire ----

  /** A record as a server writes it, by its header: null (-2), an id alone (-3), or a
      full record (0). */
  datatype Wire =
    | NullWire
    | RidWire(id: s16, pos: s64)
    | FullWire(rtype: byte, id: s16, pos: s64, version: s32, content: seq<byte>)

  predicate Sendable(w: Wire)
  {
    w.FullWire? ==> |w.content| < ORIENT_NULL
  }

  function S16Bytes(v: s16): seq<byte>
  {
    SignedBytes(v, 2)
  }

  function S64Bytes(v: s64): seq<byte>
  {
    SignedBytes(v, 8)
  }

  /** The bytes of a record, followed by rest. */
  function WireThen(w: Wire, rest: seq<byte>): seq<byte>
  {
    match w
    case NullWire => S16Bytes(-2) + rest
    case RidWire(id, pos) => S16Bytes(-3) + (S16Bytes(id) + (S64Bytes(pos) + rest))
    case FullWire(t, id, pos, v, c) =>
      S16Bytes(0) + ([t] + (S16Bytes(id) + (S64Bytes(pos) + (AppendS32([], v) + (AppendBlob([], c) + rest)))))
  }

  /** The record the driver builds for a wire record. */
  function Decoded(w: Wire): Record
  {
    match w
    case NullWire => NULL
    case RidWire(id, pos) => RidRecord(id, pos)
    case FullWire(t, id, pos, v, c) => FullRecord(t, id, pos, v, Chars(c))
  }

  /** parse_record: the s16 header decides what follows. */
  function ParseRecord(r: Reader): (o: Result<Read<Record>>)
    ensures o.Ok? ==> |o.value.rest.input| < |r.input| && o.value.rest.res >= 0
    ensures o.Ok? ==> o.value.rest.session == r.session
  {
    Pow256Values();
    var h :- ParseS16(r);
    if h.value == -2 then Ok(Read(NULL, h.rest))
    else if h.value == -3 then
      var id :- ParseS16(h.rest);
      var pos :- ParseS64(id.rest);
      Ok(Read(RidRecord(id.value, pos.value), pos.rest))
    else if h.value == 0 then ParseFull(h.rest)
    else Err(Exception(UnknownHeader(h.value)))
  }

  /** The fields of a full record: type, cluster id, position, version, content. */
  function ParseFull(r: Reader): (o: Result<Read<Record>>)
    ensures o.Ok? ==> |o.value.rest.input| < |r.input| && o.value.rest.res >= 0
    ensures o.Ok? ==> o.value.rest.session == r.session
  {
    Pow256Values();
    var t :- ParseU8(r);
    var id :- ParseS16(t.rest);
    var pos :- ParseS64(id.rest);
    var v :- ParseS32(pos.rest);
    var c :- ParseBytes(v.rest, []);
    Ok(Read(FullRecord(t.value, id.value, pos.value, v.value, Chars(c.value)), c.rest))
  }

  function UnknownHeader(h: int): string
  {
    "parse_record(): unknown record_header [" + Itoa(h) + "]"
  }

  /** Every record a server writes reads back as the record it stands for. */
  lemma RecordRoundTrip(r: Reader, w: Wire, rest: seq<byte>)
    requires r.res >= 0 && Sendable(w) && r.input == WireThen(w, rest)
    ensures ParseRecord(r) == Ok(Read(Decoded(w), r.(input := rest)))
  {
    match w
    case NullWire =>
      S16Read(r, -2, rest);
    case RidWire(id, pos) =>
      var r2 := r.(input := S64Bytes(pos) + rest);
      var r1 := r.(input := S16Bytes(id) + r2.input);
      S16Read(r, -3, r1.input);
      S16Read(r1, id, r2.input);
      S64Read(r2, pos, rest);
    case FullWire(t, id, pos, v, c) =>
      var r5 := r.(input := AppendBlob([], c) + rest);
      var r4 := r.(input := AppendS32([], v) + r5.input);
      var r3 := r.(input := S64Bytes(pos) + r4.input);
      var r2 := r.(input := S16Bytes(id) + r3.input);
      var r1 := r.(input := [t] + r2.input);
      S16Read(r, 0, r1.input);
      U8Read(r1, t, r2.input);
      S16Read(r2, id, r3.input);
      S64Read(r3, pos, r4.input);
      S32Read(r4, v, r5.input);
      BlobFieldRoundTrip(r5, c, rest);
      FullFrom(r1, r2, r3, r4, r5, t, id, pos, v, c, r.(input := rest));
      HeaderFrom(r, 0, r1);
  }

  /** A full record in terms of its five reads. */
  lemma FullFrom(r1: Reader, r2: Reader, r3: Reader, r4: Reader, r5: Reader,
                 t: byte, id: s16, pos: s64, v: s32, c: seq<byte>, r6: Reader)
    requires ParseU8(r1) == Ok(Read(t, r2))
    requires ParseS16(r2) == Ok(Read(id, r3)) && ParseS64(r3) == Ok(Read(pos, r4))
    requires ParseS32(r4) == Ok(Read(v, r5)) && ParseBytes(r5, []) == Ok(Read(c, r6))
    ensures ParseFull(r1) == Ok(Read(FullRecord(t, id, pos, v, Chars(c)), r6))
  {
  }

  /** parse_record after a header of 0 reads a full record. */
  lemma HeaderFrom(r: Reader, h: int, r1: Reader)
    requires h == 0 && ParseS16(r) == Ok(Read(h, r1))
    ensures ParseRecord(r) == ParseFull(r1)
  {
  }

  /** Any other header is refused, naming the header. */
  lemma UnknownHeaderRefused(r: Reader, h: s16, rest: seq<byte>)
    requires r.res >= 0 && r.input == S16Bytes(h) + rest && h != -2 && h != -3 && h != 0
    ensures ParseRecord(r) == Err(Exception("parse_record(): unknown record_header [" + Itoa(h) + "]"))
  {
    S16Read(r, h, rest);
  }

  // ---- Collections ----

  /** The records a response has added to the result so far, and how the reading ended:
      where it stopped, or the error raised. Records read before an error stay added. */
  datatype Gathered = Gathered(records: seq<Record>, outcome: Result<Reader>)

  /** The records of a collection from record i of n on: each one is added as soon as
      it is read. */
  function CollectLoop(r: Reader, n: nat, i: nat, acc: seq<Record>): (g: Gathered)
    requires i <= n
    ensures acc <= g.records && |g.records| <= |acc| + (n - i)
    ensures g.outcome.Ok? ==> |g.records| == |acc| + (n - i)
    decreases n - i
  {
    if i == n then Gathered(acc, Ok(r))
    else
      match ParseRecord(r)
      case Err(e) => Gathered(acc, Err(e))
      case Ok(rec) => CollectLoop(rec.rest, n, i + 1, acc + [rec.value])
  }

  /** parse_records_collection: a u32 count, then that many records. */
  function Collection(r: Reader, acc: seq<Record>): (g: Gathered)
    ensures acc <= g.records
  {
    match ParseU32(r)
    case Err(e) => Gathered(acc, Err(e))
    case Ok(n) => CollectLoop(n.rest, n.value, 0, acc)
  }

  /** The bytes of records i on, followed by rest. */
  function WiresFrom(ws: seq<Wire>, i: nat, rest: seq<byte>): seq<byte>
    requires i <= |ws|
    decreases |ws| - i
  {
    if i == |ws| then rest else WireThen(ws[i], WiresFrom(ws, i + 1, rest))
  }

  /** The records several wire records stand for, in order. */
  function DecodedAll(ws: seq<Wire>): (rs: seq<Record>)
    ensures |rs| == |ws|
  {
    if ws == [] then [] else DecodedAll(ws[..|ws| - 1]) + [Decoded(ws[|ws| - 1])]
  }

  predicate AllSendable(ws: seq<Wire>)
  {
    forall i | 0 <= i < |ws| :: Sendable(ws[i])
  }

  /** One turn of the loop: a record read is added and the count goes up. */
  lemma CollectStep(r: Reader, n: nat, i: nat, acc: seq<Record>, rec: Record, r1: Reader)
    requires i < n && ParseRecord(r) == Ok(Read(rec, r1))
    ensures CollectLoop(r, n, i, acc) == CollectLoop(r1, n, i + 1, acc + [rec])
  {
  }

  /** Reader k, at record k with the first k records added, leads the loop on to
      reader k + 1 with one more record added. */
  predicate Pushes(rs: seq<Reader>, accs: seq<seq<Record>>, n: nat, k: nat)
  {
    k + 1 < |rs| && k + 1 < |accs| && k < n
    && CollectLoop(rs[k], n, k, accs[k]) == CollectLoop(rs[k + 1], n, k + 1, accs[k + 1])
  }

  /** Every record written is read and added, one per turn. */
  lemma CollectEntries(r: Reader, ws: seq<Wire>, rest: seq<byte>, n: nat, acc: seq<Record>)
    requires r.res >= 0 && AllSendable(ws) && |ws| <= n
    ensures var rs := seq(|ws| + 1, k requires 0 <= k <= |ws| => r.(input := WiresFrom(ws, k, rest)));
            var accs := seq(|ws| + 1, k requires 0 <= k <= |ws| => acc + DecodedAll(ws[..k]));
            forall k | 0 <= k < |ws| :: Pushes(rs, accs, n, k)
  {
    var rs := seq(|ws| + 1, k requires 0 <= k <= |ws| => r.(input := WiresFrom(ws, k, rest)));
    var accs := seq(|ws| + 1, k requires 0 <= k <= |ws| => acc + DecodedAll(ws[..k]));
    forall k | 0 <= k < |ws|
      ensures Pushes(rs, accs, n, k)
    {
      PushOne(r, ws, rest, n, acc, k);
    }
  }

  /** Record k is read and added. */
  lemma PushOne(r: Reader, ws: seq<Wire>, rest: seq<byte>, n: nat, acc: seq<Record>, k: nat)
    requires r.res >= 0 && AllSendable(ws) && |ws| <= n && k < |ws|
    ensures CollectLoop(r.(input := WiresFrom(ws, k, rest)), n, k, acc + DecodedAll(ws[..k]))
            == CollectLoop(r.(input := WiresFrom(ws, k + 1, rest)), n, k + 1, acc + DecodedAll(ws[..k + 1]))
  {
    var here := r.(input := WiresFrom(ws, k, rest));
    var next := r.(input := WiresFrom(ws, k + 1, rest));
    assert here.input == WireThen(ws[k], next.input);
    assert Sendable(ws[k]);
    RecordRoundTrip(here, ws[k], next.input);
    assert here.(input := next.input) == next;
    var before := acc + DecodedAll(ws[..k]);
    CollectStep(here, n, k, before, Decoded(ws[k]), next);
    DecodedSnoc(ws, k);
    assert before + [Decoded(ws[k])] == acc + DecodedAll(ws[..k + 1]);
  }

  lemma DecodedSnoc(ws: seq<Wire>, k: nat)
    requires k < |ws|
    ensures DecodedAll(ws[..k + 1]) == DecodedAll(ws[..k]) + [Decoded(ws[k])]
  {
    assert ws[..k + 1][..k] == ws[..k];
  }

  /** Records a server writes at the front of the stream are added in order, one each,
      and the loop goes on after them. */
  lemma CollectPrefix(r: Reader, ws: seq<Wire>, rest: seq<byte>, n: nat, acc: seq<Record>)
    requires r.res >= 0 && AllSendable(ws) && |ws| <= n
    ensures CollectLoop(r.(input := WiresFrom(ws, 0, rest)), n, 0, acc)
            == CollectLoop(r.(input := rest), n, |ws|, acc + DecodedAll(ws))
  {
    var rs := seq(|ws| + 1, k requires 0 <= k <= |ws| => r.(input := WiresFrom(ws, k, rest)));
    var accs := seq(|ws| + 1, k requires 0 <= k <= |ws| => acc + DecodedAll(ws[..k]));
    CollectEntries(r, ws, rest, n, acc);
    var vs := seq(|ws| + 1, k requires 0 <= k <= |ws| => CollectLoop(rs[k], n, k, accs[k]));
    forall k | 0 <= k < |ws|
      ensures SameNext(vs, k)
    {
      assert Pushes(rs, accs, n, k);
    }
    Chain(vs, 0);
    assert ws[..0] == [] && ws[..|ws|] == ws && acc + [] == acc;
  }

  /** A collection of exactly the announced records reads back as those records, and
      reading stops right after them. */
  lemma CollectRoundTrip(r: Reader, ws: seq<Wire>, rest: seq<byte>, acc: seq<Record>)
    requires r.res >= 0 && AllSendable(ws) && r.input == WiresFrom(ws, 0, rest)
    ensures CollectLoop(r, |ws|, 0, acc) == Gathered(acc + DecodedAll(ws), Ok(r.(input := rest)))
  {
    CollectPrefix(r, ws, rest, |ws|, acc);
    assert r.(input := WiresFrom(ws, 0, rest)) == r;
  }

  /** A collection that announces more records than follow: the ones that came stay
      added, and the reading ends at the end of the stream. */
  lemma CutCollection(r: Reader, n: nat, ws: seq<Wire>, acc: seq<Record>)
    requires r.res >= 0 && AllSendable(ws) && |ws| < n && r.input == WiresFrom(ws, 0, [])
    ensures CollectLoop(r, n, 0, acc) == Gathered(acc + DecodedAll(ws), Err(SystemError(Eof)))
  {
    CollectPrefix(r, ws, [], n, acc);
    assert r.(input := WiresFrom(ws, 0, [])) == r;
  }

  // ---- Payloads ----

  /** What a reply to COMMAND carries after its header. */
  datatype Payload =
    | Listed(ws: seq<Wire>)
    | Single(w: Wire)
    | NoRecords(status: byte)
    | SerializedResult(status: byte, text: string)

  predicate WellFormed(p: Payload)
  {
    match p
    case Listed(ws) => |ws| < 0x1_0000_0000 && AllSendable(ws)
    case Single(w) => Sendable(w)
    case NoRecords(status) => status == 0 || status == 'n' as int
    case SerializedResult(status, text) => (status == 1 || status == 2 || status == 'a' as int) && Encodable(text)
  }

  /** The bytes of a payload, followed by rest. */
  function PayloadThen(p: Payload, rest: seq<byte>): seq<byte>
    requires WellFormed(p)
  {
    match p
    case Listed(ws) => ['l' as int] + (BigEndian(|ws|, 4) + WiresFrom(ws, 0, rest))
    case Single(w) => ['r' as int] + WireThen(w, rest)
    case NoRecords(status) => [status] + rest
    case SerializedResult(status, text) => [status] + (Field(text) + rest)
  }

  /** The records a payload stands for. */
  function PayloadRecords(p: Payload): seq<Record>
  {
    match p
    case Listed(ws) => DecodedAll(ws)
    case Single(w) => [Decoded(w)]
    case NoRecords(_) => []
    case SerializedResult(_, text) => [SerializedRecord(text)]
  }

  function UnsupportedResult(status: byte): string
  {
    "Unsupported query result [" + Itoa(status) + "]"
  }

  /** The payload-status dispatch: a collection, one record, nothing, or one serialized
      record; any other status is refused. Records are added to acc. */
  function ReadPayload(r: Reader, acc: seq<Record>): (g: Gathered)
    ensures acc <= g.records
  {
    match ParseU8(r)
    case Err(e) => Gathered(acc, Err(e))
    case Ok(s) =>
      var status := s.value;
      if status == 'l' as int then Collection(s.rest, acc)
      else if status == 'r' as int then
        match ParseRecord(s.rest)
        case Err(e) => Gathered(acc, Err(e))
        case Ok(rec) => Gathered(acc + [rec.value], Ok(rec.rest))
      else if status == 0 || status == 'n' as int then Gathered(acc, Ok(s.rest))
      else if status == 1 || status == 2 || status == 'a' as int then
        match ParseString(s.rest, "")
        case Err(e) => Gathered(acc, Err(e))
        case Ok(t) => Gathered(acc + [SerializedRecord(t.value)], Ok(t.rest))
      else Gathered(acc, Err(Exception(UnsupportedResult(status))))
  }

  /** Every well-formed payload reads back as the records it stands for, added in
      order, and reading stops right after it. */
  lemma PayloadRoundTrip(r: Reader, p: Payload, rest: seq<byte>, acc: seq<Record>)
    requires r.res >= 0 && WellFormed(p) && r.input == PayloadThen(p, rest)
    ensures ReadPayload(r, acc) == Gathered(acc + PayloadRecords(p), Ok(r.(input := rest)))
  {
    match p
    case Listed(ws) => ListedRoundTrip(r, ws, rest, acc);
    case Single(w) =>
      var r1 := r.(input := WireThen(w, rest));
      U8Read(r, 'r' as int, r1.input);
      RecordRoundTrip(r1, w, rest);
      SingleFrom(r, r1, Decoded(w), r.(input := rest), acc);
    case NoRecords(status) =>
      U8Read(r, status, rest);
    case SerializedResult(status, text) =>
      var r1 := r.(input := Field(text) + rest);
      U8Read(r, status, r1.input);
      StringFieldRoundTrip(r1, text, rest);
      SerializedFrom(r, r1, status, text, r.(input := rest), acc);
  }

  lemma ListedRoundTrip(r: Reader, ws: seq<Wire>, rest: seq<byte>, acc: seq<Record>)
    requires r.res >= 0 && WellFormed(Listed(ws)) && r.input == PayloadThen(Listed(ws), rest)
    ensures ReadPayload(r, acc) == Gathered(acc + DecodedAll(ws), Ok(r.(input := rest)))
  {
    Pow256Values();
    var tail := BigEndian(|ws|, 4) + WiresFrom(ws, 0, rest);
    var r1 := r.(input := tail);
    var r2 := r.(input := WiresFrom(ws, 0, rest));
    U8Read(r, 'l' as int, tail);
    FixedRead(tail, |ws|, 4, r2.input);
    assert ParseU32(r1) == Ok(Read(|ws|, r2));
    CollectRoundTrip(r2, ws, rest, acc);
    ListedFrom(r, r1, r2, |ws|, acc);
  }

  /** A single-record payload in terms of its status byte and record. */
  lemma SingleFrom(r: Reader, r1: Reader, rec: Record, r2: Reader, acc: seq<Record>)
    requires ParseU8(r) == Ok(Read('r' as int, r1)) && ParseRecord(r1) == Ok(Read(rec, r2))
    ensures ReadPayload(r, acc) == Gathered(acc + [rec], Ok(r2))
  {
  }

  /** A serialized-result payload in terms of its status byte and text. */
  lemma SerializedFrom(r: Reader, r1: Reader, status: byte, text: string, r2: Reader, acc: seq<Record>)
    requires status == 1 || status == 2 || status == 'a' as int
    requires ParseU8(r) == Ok(Read(status, r1)) && ParseString(r1, "") == Ok(Read(text, r2))
    ensures ReadPayload(r, acc) == Gathered(acc + [SerializedRecord(text)], Ok(r2))
  {
  }

  /** A collection payload in terms of its status byte and count. */
  lemma ListedFrom(r: Reader, r1: Reader, r2: Reader, n: nat, acc: seq<Record>)
    requires ParseU8(r) == Ok(Read('l' as int, r1)) && ParseU32(r1) == Ok(Read(n, r2))
    ensures ReadPayload(r, acc) == CollectLoop(r2, n, 0, acc)
  {
  }

  /** Any status outside the dispatch is refused, naming the status, and nothing is
      added. */
  lemma UnsupportedStatus(r: Reader, status: byte, rest: seq<byte>, acc: seq<Record>)
    requires r.res >= 0 && r.input == [status] + rest
    requires status !in {'l' as int, 'r' as int, 0, 'n' as int, 1, 2, 'a' as int}
    ensures ReadPayload(r, acc) == Gathered(acc, Err(Exception("Unsupported query result [" + Itoa(status) + "]")))
  {
    U8Read(r, status, rest);
  }

  /** A reply whose header is accepted is read as its payload. */
  lemma ReplyRoundTrip(session: Session, sid: s32, p: Payload, rest: seq<byte>, acc: seq<Record>)
    requires !session.connected || session.id == sid
    requires WellFormed(p)
    ensures ReadPayload(Start(Header(0, sid) + PayloadThen(p, rest), session), acc)
            == Gathered(acc + PayloadRecords(p), Ok(Reader(rest, 0, session)))
  {
    var r := Start(Header(0, sid) + PayloadThen(p, rest), session);
    var r1 := Reader(PayloadThen(p, rest), 0, session);
    HeaderAccepted(session, sid, PayloadThen(p, rest));
    ReadsAfterHeader(r, r1);
    PayloadRoundTrip(r1, p, rest, acc);
    SameStatus(r, r1, acc);
  }

  /** The dispatch sees the reader only through its status byte read. */
  lemma SameStatus(r: Reader, r1: Reader, acc: seq<Record>)
    requires ParseU8(r) == ParseU8(r1)
    ensures ReadPayload(r, acc) == ReadPayload(r1, acc)
  {
  }

  // ---- Records already in the result ----

  /** The loop adds to whatever the result held: its records are those it reads from an
      empty result, after the ones already there, and it ends the same way. */
  lemma {:induction false} LoopShift(r: Reader, n: nat, i: nat, acc: seq<Record>)
    requires i <= n
    ensures var g := CollectLoop(r, n, i, []);
            CollectLoop(r, n, i, acc) == Gathered(acc + g.records, g.outcome)
    decreases n - i
  {
    if i < n {
      match ParseRecord(r)
      case Err(_) =>
        assert acc + [] == acc;
      case Ok(rec) =>
        var g := CollectLoop(rec.rest, n, i + 1, []);
        LoopShift(rec.rest, n, i + 1, acc + [rec.value]);
        LoopShift(rec.rest, n, i + 1, [rec.value]);
        CollectStep(r, n, i, acc, rec.value, rec.rest);
        CollectStep(r, n, i, [], rec.value, rec.rest);
        assert [] + [rec.value] == [rec.value];
        ShiftClose(CollectLoop(r, n, i, acc), CollectLoop(r, n, i, []), g, acc, rec.value);
    } else {
      assert acc + [] == acc;
    }
  }

  /** The sequence algebra of one LoopShift step. */
  lemma ShiftClose(a: Gathered, b: Gathered, g: Gathered, acc: seq<Record>, v: Record)
    requires a == Gathered(acc + [v] + g.records, g.outcome)
    requires b == Gathered([v] + g.records, g.outcome)
    ensures a == Gathered(acc + b.records, b.outcome)
  {
    assert acc + [v] + g.records == acc + ([v] + g.records);
  }

  /** The same holds of the whole payload dispatch. */
  lemma PayloadShift(r: Reader, acc: seq<Record>)
    ensures var g := ReadPayload(r, []);
            ReadPayload(r, acc) == Gathered(acc + g.records, g.outcome)
  {
    assert acc + [] == acc;
    match ParseU8(r)
    case Err(_) =>
    case Ok(s) =>
      if s.value == 'l' as int {
        match ParseU32(s.rest)
        case Err(_) =>
        case Ok(n) => LoopShift(n.rest, n.value, 0, acc);
      } else {
        assert forall x: Record {:trigger [x]} :: [] + [x] == [x];
      }
  }

  // ---- insert_id ----

  /** Queries whose first record is taken as the id of what they created. */
  predicate Creates(q: string)
  {
    StartsWithNoCase(q, "create") || StartsWithNoCase(q, "insert")
  }

  /** insert_id after a successful run: for a create or insert, the first record of the
      result retagged as an id; any other query leaves it as it was. */
  function InsertId(q: string, records: seq<Record>, prev: Record): (id: Record)
    requires Creates(q) ==> records != []
    ensures Creates(q) ==> id.rtype == RECORD_ID && id.rid == records[0].rid
                           && id.version == records[0].version && id.content == records[0].content
    ensures !Creates(q) ==> id == prev
  {
    if Creates(q) then records[0].(rtype := RECORD_ID) else prev
  }

  // ---- One run of execute's try block ----

  /** The query's state and what a run of execute has done: the database and server
      handles, the frames sent, the records in the result, and the error raised. */
  datatype Exec = Exec(query: Query, db: Db, server: Server, sent: seq<seq<byte>>,
                       records: seq<Record>, error: Option<Error>)

  /** The body of execute's try block on top of what came before: pick the text, stop
      at once when it is empty, classify it (an unsupported kind raises before anything
      is sent), send COMMAND under the database's session, read the payload into the
      result, then set insert_id. */
  function ExecuteAttempt(pre: Exec, qs: Option<string>, queryType: int, reply: seq<byte>): (o: Exec)
    ensures o.db == pre.db && o.server == pre.server && pre.records <= o.records
    ensures o.query.q == QueryText(pre.query, qs).q
    ensures QueryText(pre.query, qs).q == [] ==>
              o == pre.(query := QueryText(pre.query, qs), error := None)
    ensures QueryText(pre.query, qs).q != [] && CommandClass(QueryText(pre.query, qs).q, queryType).Err? ==>
              o.sent == pre.sent && o.records == pre.records && o.error == Some(Exception(UNSUPPORTED_LANGUAGE))
    ensures var q := QueryText(pre.query, qs).q;
            q != [] && CommandClass(q, queryType).Ok? ==>
              o.sent == pre.sent + [Request(COMMAND, pre.db.session.id, CommandBody(CommandClass(q, queryType).value, queryType, q))]
  {
    var st := QueryText(pre.query, qs);
    if st.q == [] then pre.(query := st, error := None)
    else
      match CommandClass(st.q, queryType)
      case Err(e) => pre.(query := st, error := Some(e))
      case Ok(cls) =>
        var frame := Send(pre.server.session, COMMAND, CommandBody(cls, queryType, st.q), Some(pre.db.session)).frame;
        var sent := pre.sent + [frame];
        var g := ReadPayload(Start(reply, pre.db.session), pre.records);
        match g.outcome
        case Err(e) => Exec(st, pre.db, pre.server, sent, g.records, Some(e))
        case Ok(_) =>
          // insert_id of an empty result is not defined by the driver; it is kept here
          var id := if Creates(st.q) && g.records == [] then st.insertId else InsertId(st.q, g.records, st.insertId);
          Exec(st.(insertId := id), pre.db, pre.server, sent, g.records, None)
  }

  // ---- The retry ----

  /** The replies execute reads, in order: to the first COMMAND, to the reconnect after a
      lost connection, to the open that follows it, to the second COMMAND. */
  datatype ExecReplies = ExecReplies(first: seq<byte>, relink: seq<byte>, reopen: OpenReplies, second: seq<byte>)

  /** orientdb::reopen: reconnect the server, then open the database again under what
      it was opened with. A failure of either is raised as the Exception it is. */
  function Reopen(db: Db, srv: Server, relink: seq<byte>, replies: OpenReplies): (o: Opening)
    ensures o.error.Some? ==> o.error.value.Exception?
    ensures o.error.None? ==> Opens(o.db, db.name, db.kind, db.user, db.pass)
  {
    var c := Reconnect(db, srv, relink);
    if c.error.Some? then c
    else
      var op := OpenDb(c.db, c.server, db.name, db.kind, db.user, db.pass, replies);
      op.(sent := c.sent + op.sent)
  }

  /** execute's catch, given the first run, the reopen a lost connection triggers, and
      the second run: as open's catch, with execute's name in what it raises. */
  function SettleExec(a: Exec, c: Opening, b: Exec): (o: Exec)
    requires c.error.Some? ==> c.error.value.Exception?
    ensures a.error.None? ==> o == a
    ensures o.error.Some? ==> o.error.value.Exception?
    ensures o.error.None? ==> (a.error.None? && o == a) || (b.error.None? && o == b)
  {
    match a.error
    case None => a
    case Some(e) =>
      match Decide(e, false, EXECUTE_CONTEXT)
      case Raise(x) => a.(error := Some(x))
      case Again =>
        if c.error.Some? then a.(db := c.db, server := c.server, sent := a.sent + c.sent, error := c.error)
        // reconnecting is now set, so the catch raises whatever the second run throws
        else if b.error.Some? then b.(error := Some(Raised(b.error.value, EXECUTE_CONTEXT)))
        else b
  }

  /** The state the second run starts from: the first run's query, the reopened
      handles, every frame so far, and the given records. */
  function Restart(a: Exec, c: Opening, records: seq<Record>): Exec
  {
    Exec(a.query, c.db, c.server, a.sent + c.sent, records, None)
  }

  /** The start of execute: a fresh, empty result. */
  function Fresh(query: Query, db: Db, srv: Server): Exec
  {
    Exec(query, db, srv, [], [], None)
  }

  /** orientquery::execute as the driver has it: the result object is made once, before
      the restart label, so the second run adds to whatever the first run had added. */
  function ExecuteAsWritten(query: Query, db: Db, srv: Server, qs: Option<string>, queryType: int,
                            replies: ExecReplies): (o: Exec)
    ensures o.error.Some? ==> o.error.value.Exception?
  {
    var a := ExecuteAttempt(Fresh(query, db, srv), qs, queryType, replies.first);
    var c := Reopen(a.db, a.server, replies.relink, replies.reopen);
    SettleExec(a, c, ExecuteAttempt(Restart(a, c, a.records), qs, queryType, replies.second))
  }

  /** orientquery::execute with each run reading into an empty result, so that the
      records returned are those of the run that succeeded. */
  function Execute(query: Query, db: Db, srv: Server, qs: Option<string>, queryType: int,
                   replies: ExecReplies): (o: Exec)
    ensures o.error.Some? ==> o.error.value.Exception?
  {
    var a := ExecuteAttempt(Fresh(query, db, srv), qs, queryType, replies.first);
    var c := Reopen(a.db, a.server, replies.relink, replies.reopen);
    SettleExec(a, c, ExecuteAttempt(Restart(a, c, []), qs, queryType, replies.second))
  }

  /** An empty query returns an empty result at once: nothing is sent and nothing
      raised. */
  lemma EmptyQuery(query: Query, db: Db, srv: Server, qs: Option<string>, queryType: int, replies: ExecReplies)
    requires QueryText(query, qs).q == []
    ensures Execute(query, db, srv, qs, queryType, replies) == Fresh(QueryText(query, qs), db, srv)
  {
    var a := ExecuteAttempt(Fresh(query, db, srv), qs, queryType, replies.first);
    assert a == Fresh(QueryText(query, qs), db, srv);
  }

  /** A query of an unsupported kind raises before anything is sent, and the retry
      does not apply to it. */
  lemma UnsupportedLanguage(query: Query, db: Db, srv: Server, qs: Option<string>, queryType: int, replies: ExecReplies)
    requires QueryText(query, qs).q != [] && queryType !in {AS_SQL, AS_JAVASCRIPT, AS_GREMLIN}
    ensures var o := Execute(query, db, srv, qs, queryType, replies);
            o.sent == [] && o.records == [] && o.error == Some(Exception(UNSUPPORTED_LANGUAGE))
  {
    var a := ExecuteAttempt(Fresh(query, db, srv), qs, queryType, replies.first);
    assert a.sent == [] && a.records == [] && a.error == Some(Exception(UNSUPPORTED_LANGUAGE));
  }

  /** A run that sends reads the reply into the result: the run's records and error are
      the dispatch's, and a failed run keeps the text it picked. */
  lemma AttemptReads(pre: Exec, qs: Option<string>, queryType: int, reply: seq<byte>)
    requires QueryText(pre.query, qs).q != [] && CommandClass(QueryText(pre.query, qs).q, queryType).Ok?
    ensures var g := ReadPayload(Start(reply, pre.db.session), pre.records);
            var o := ExecuteAttempt(pre, qs, queryType, reply);
            o.records == g.records && (o.error.None? <==> g.outcome.Ok?)
            && (g.outcome.Err? ==> o.error == Some(g.outcome.error) && o.query == QueryText(pre.query, qs))
  {
  }

  /** execute's plain success: a clean reply to the one COMMAND sent is the result, and
      insert_id is taken from its records. */
  lemma ExecuteReturnsReply(query: Query, db: Db, srv: Server, qs: Option<string>, queryType: int,
                            replies: ExecReplies, p: Payload, rest: seq<byte>)
    requires QueryText(query, qs).q != [] && CommandClass(QueryText(query, qs).q, queryType).Ok?
    requires WellFormed(p)
    requires replies.first == Header(0, db.session.id) + PayloadThen(p, rest)
    ensures var o := Execute(query, db, srv, qs, queryType, replies);
            var st := QueryText(query, qs);
            o.error == None && o.records == PayloadRecords(p)
            && o.sent == [Request(COMMAND, db.session.id, CommandBody(CommandClass(st.q, queryType).value, queryType, st.q))]
            && (PayloadRecords(p) != [] ==> o.query.insertId == InsertId(st.q, PayloadRecords(p), st.insertId))
  {
    var pre := Fresh(query, db, srv);
    var a := ExecuteAttempt(pre, qs, queryType, replies.first);
    assert ReadPayload(Start(replies.first, db.session), []) == Gathered(PayloadRecords(p), Ok(Reader(rest, 0, db.session))) by {
      ReplyRoundTrip(db.session, db.session.id, p, rest, []);
      assert [] + PayloadRecords(p) == PayloadRecords(p);
    }
    AttemptReads(pre, qs, queryType, replies.first);
    assert a.error == None && a.records == PayloadRecords(p);
    FirstRunStands(a, Reopen(a.db, a.server, replies.relink, replies.reopen),
                   ExecuteAttempt(Restart(a, Reopen(a.db, a.server, replies.relink, replies.reopen), []), qs, queryType, replies.second));
  }

  /** A first run that succeeds is execute's result. */
  lemma FirstRunStands(a: Exec, c: Opening, b: Exec)
    requires c.error.Some? ==> c.error.value.Exception?
    requires a.error.None?
    ensures SettleExec(a, c, b) == a
  {
  }

  /** An 'r' reply to a create or insert sets insert_id to its record, retagged as an id. */
  lemma InsertIdOfSingle(query: Query, db: Db, srv: Server, qs: Option<string>, queryType: int,
                         replies: ExecReplies, w: Wire, rest: seq<byte>)
    requires QueryText(query, qs).q != [] && CommandClass(QueryText(query, qs).q, queryType).Ok?
    requires Creates(QueryText(query, qs).q) && WellFormed(Single(w))
    requires replies.first == Header(0, db.session.id) + PayloadThen(Single(w), rest)
    ensures var id := Execute(query, db, srv, qs, queryType, replies).query.insertId;
            id.rtype == RECORD_ID && id.rid == Decoded(w).rid && id.content == Decoded(w).content
  {
    ExecuteReturnsReply(query, db, srv, qs, queryType, replies, Single(w), rest);
  }

  // ---- The result of execute ----

  /** The result of execute as a value: the records, or the error raised. */
  function ExecOutcome(o: Exec): Result<seq<Record>>
  {
    if o.error.None? then Ok(o.records) else Err(o.error.value)
  }

  /** execute's catch follows the retry policy: its outcome is the reference outcome of
      the first run and of the reopen-and-run-again a lost connection triggers. */
  lemma SettleExecRetried(a: Exec, c: Opening, b: Exec)
    requires c.error.Some? ==> c.error.value.Exception?
    ensures var second := if c.error.Some? then Err(c.error.value) else ExecOutcome(b);
            ExecOutcome(SettleExec(a, c, b)) == Retried(ExecOutcome(a), second, EXECUTE_CONTEXT)
  {
  }

  /** The reply of a collection that announces two records and breaks off after a null
      one. */
  function CutReply(sid: s32): seq<byte>
  {
    Header(0, sid) + (['l' as int] + (BigEndian(2, 4) + WireThen(NullWire, [])))
  }

  /** Reading the cut reply adds the null record, then meets the end of the stream. */
  lemma CutReplyRead(session: Session, sid: s32, acc: seq<Record>)
    requires !session.connected || session.id == sid
    ensures ReadPayload(Start(CutReply(sid), session), acc) == Gathered(acc + [NULL], Err(SystemError(Eof)))
  {
    Pow256Values();
    var tail := BigEndian(2, 4) + WireThen(NullWire, []);
    var r := Start(CutReply(sid), session);
    var r0 := Reader(['l' as int] + tail, 0, session);
    var r1 := r0.(input := tail);
    var r2 := r0.(input := WireThen(NullWire, []));
    HeaderAccepted(session, sid, r0.input);
    ReadsAfterHeader(r, r0);
    SameStatus(r, r0, acc);
    U8Read(r0, 'l' as int, tail);
    FixedRead(tail, 2, 4, r2.input);
    assert ParseU32(r1) == Ok(Read(2, r2));
    ListedFrom(r0, r1, r2, 2, acc);
    assert WiresFrom([NullWire], 0, []) == r2.input;
    CutCollection(r2, 2, [NullWire], acc);
    assert DecodedAll([NullWire]) == [NULL];
  }

  /** The catch after a lost connection, a good reopen and a good second run: the second
      run is the result. */
  lemma SettleAgain(a: Exec, c: Opening, b: Exec)
    requires a.error.Some? && IsConnectionLoss(a.error.value) && c.error.None? && b.error.None?
    ensures SettleExec(a, c, b) == b
  {
  }

  /** A run adds to the records it starts with: it adds what it adds to an empty result,
      and ends the same way. */
  lemma AttemptShift(pre: Exec, qs: Option<string>, queryType: int, reply: seq<byte>, acc: seq<Record>)
    requires pre.records == []
    ensures var o := ExecuteAttempt(pre, qs, queryType, reply);
            var o2 := ExecuteAttempt(pre.(records := acc), qs, queryType, reply);
            o2.records == acc + o.records && o2.error == o.error && o2.sent == o.sent
  {
    var q := QueryText(pre.query, qs).q;
    if q == [] || CommandClass(q, queryType).Err? {
      assert acc + [] == acc;
    } else {
      AttemptReads(pre, qs, queryType, reply);
      AttemptReads(pre.(records := acc), qs, queryType, reply);
      PayloadShift(Start(reply, pre.db.session), acc);
    }
  }

  /** As written, a run cut short by a lost connection leaves its records in the result:
      once the database is reopened, execute returns them ahead of the records the
      second run reads, where the corrected execute returns the second run's alone. */
  lemma RetryKeepsPartialRecords(query: Query, db: Db, srv: Server, qs: Option<string>, queryType: int,
                                 replies: ExecReplies)
    requires var a := ExecuteAttempt(Fresh(query, db, srv), qs, queryType, replies.first);
             a.error.Some? && IsConnectionLoss(a.error.value)
    requires Reopen(db, srv, replies.relink, replies.reopen).error.None?
    ensures var a := ExecuteAttempt(Fresh(query, db, srv), qs, queryType, replies.first);
            var o := ExecuteAsWritten(query, db, srv, qs, queryType, replies);
            var fixed := Execute(query, db, srv, qs, queryType, replies);
            o.records == a.records + fixed.records && o.error == fixed.error
  {
    var a := ExecuteAttempt(Fresh(query, db, srv), qs, queryType, replies.first);
    var c := Reopen(a.db, a.server, replies.relink, replies.reopen);
    var b0 := Restart(a, c, []);
    AttemptShift(b0, qs, queryType, replies.second, a.records);
    assert b0.(records := a.records) == Restart(a, c, a.records);
    var b := ExecuteAttempt(b0, qs, queryType, replies.second);
    var b2 := ExecuteAttempt(Restart(a, c, a.records), qs, queryType, replies.second);
    if b.error.None? {
      SettleAgain(a, c, b);
      SettleAgain(a, c, b2);
    } else {
      assert b2.error == b.error;
    }
  }

  /** A run over the cut reply adds the null record and loses the connection. */
  lemma CutRun(pre: Exec, qs: Option<string>, queryType: int)
    requires pre.records == [] && QueryText(pre.query, qs).q != []
    requires CommandClass(QueryText(pre.query, qs).q, queryType).Ok?
    ensures var a := ExecuteAttempt(pre, qs, queryType, CutReply(pre.db.session.id));
            a.records == [NULL] && a.error == Some(SystemError(Eof)) && a.query == QueryText(pre.query, qs)
  {
    CutReplyRead(pre.db.session, pre.db.session.id, []);
    AttemptReads(pre, qs, queryType, CutReply(pre.db.session.id));
    assert [] + [NULL] == [NULL];
  }

  /** The counterexample: the first reply breaks off after one null record of two, the
      database is reopened, and the second run succeeds. As written, execute returns the
      stale null record ahead of the second run's records. */
  lemma StaleNullRecord(query: Query, db: Db, srv: Server, qs: Option<string>, queryType: int,
                        replies: ExecReplies)
    requires QueryText(query, qs).q != [] && CommandClass(QueryText(query, qs).q, queryType).Ok?
    requires replies.first == CutReply(db.session.id)
    requires Reopen(db, srv, replies.relink, replies.reopen).error.None?
    ensures ExecuteAsWritten(query, db, srv, qs, queryType, replies).records
            == [NULL] + Execute(query, db, srv, qs, queryType, replies).records
  {
    CutRun(Fresh(query, db, srv), qs, queryType);
    RetryKeepsPartialRecords(query, db, srv, qs, queryType, replies);
  }

  /** The corrected execute after the same lost connection returns exactly the records
      of the reply to the second run. */
  lemma RetryReturnsSecondRun(query: Query, db: Db, srv: Server, qs: Option<string>, queryType: int,
                              replies: ExecReplies, p: Payload, rest: seq<byte>)
    requires QueryText(query, qs).q != [] && CommandClass(QueryText(query, qs).q, queryType).Ok?
    requires replies.first == CutReply(db.session.id)
    requires Reopen(db, srv, replies.relink, replies.reopen).error.None?
    requires WellFormed(p)
    requires replies.second == Header(0, Reopen(db, srv, replies.relink, replies.reopen).db.session.id) + PayloadThen(p, rest)
    ensures var o := Execute(query, db, srv, qs, queryType, replies);
            o.error == None && o.records == PayloadRecords(p)
  {
    var a := ExecuteAttempt(Fresh(query, db, srv), qs, queryType, replies.first);
    CutRun(Fresh(query, db, srv), qs, queryType);
    var c := Reopen(a.db, a.server, replies.relink, replies.reopen);
    var b0 := Restart(a, c, []);
    QueryTextAgain(query, qs);
    ReplyRoundTrip(c.db.session, c.db.session.id, p, rest, []);
    AttemptReads(b0, qs, queryType, replies.second);
    assert [] + PayloadRecords(p) == PayloadRecords(p);
    SettleAgain(a, c, ExecuteAttempt(b0, qs, queryType, replies.second));
  }
}
