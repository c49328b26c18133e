/** The response reader (orientrsp): a cursor over the bytes the server sent for
    one request, bound to one session. The result header is checked lazily and
    at most once; a non-zero result unwinds the server's exception chain. */
module Response {
  import opened Wrappers
  import opened Bytes
  import opened Text
  import opened Frame

  /** `res` is the signed result byte, -1 until the header has been read. */
  datatype Reader = Reader(input: seq<byte>, res: int, session: Session)

  datatype Read<+T> = Read(value: T, rest: Reader)

  /** A fresh reader for a response to a request sent on `session`. */
  function Start(input: seq<byte>, session: Session): Reader
  {
    Reader(input, -1, session)
  }

  const WRONG_SESSION := "orientsrv::Error: Wrong Server Session ID"
  const SERVER_ERROR := "orientsrv::Error: "

  /** tcp_client::read_data: exactly n bytes, or end of stream. */
  function Take(r: Reader, n: nat): (o: Result<Read<seq<byte>>>)
    ensures o.Ok? ==> |o.value.value| == n && |o.value.rest.input| == |r.input| - n
    ensures o.Ok? ==> o.value.rest.res == r.res && o.value.rest.session == r.session
  {
    if |r.input| < n then Err(SystemError(Eof))
    else Ok(Read(r.input[..n], r.(input := r.input[n..])))
  }

  /** The signed char the result byte is stored in. */
  function SignedByte(b: byte): int
  {
    if b >= 0x80 then b - 0x100 else b
  }

  /** check_result: the first call reads the result byte and the session id; the id
      must match a connected session, and a non-zero result raises the server's
      error chain. Once the result byte is non-negative, nothing more is read. */
  function CheckResult(r: Reader): (o: Result<Reader>)
    ensures r.res >= 0 ==> o == Ok(r)
    ensures o.Ok? ==> o.value.res >= 0 && |o.value.input| <= |r.input| && o.value.session == r.session
    ensures o.Ok? && r.res < 0 ==> |r.input| >= 5 && o.value == r.(input := r.input[5..], res := 0)
    ensures r.res < 0 && |r.input| < 5 ==> o == Err(SystemError(Eof))
    ensures (r.res < 0 && |r.input| >= 5 && r.session.connected
             && Signed(Value(r.input[1..5]), 4) != r.session.id) ==> o == Err(Exception(WRONG_SESSION))
    ensures r.res < 0 && |r.input| >= 5 && r.input[0] != 0 ==> o.Err?
    decreases |r.input|, 0
  {
    if r.res >= 0 then Ok(r)
    else if |r.input| < 5 then Err(SystemError(Eof))
    else
      Pow256Values();
      var res := SignedByte(r.input[0]);
      var sid := Signed(Value(r.input[1..5]), 4);
      var r1 := r.(input := r.input[5..], res := res);
      if r.session.connected && r.session.id != sid then Err(Exception(WRONG_SESSION))
      else if res != 0 then
        match ParseError(r1, "")
        case Err(e) => Err(e)
        case Ok(chain) => Err(Exception(SERVER_ERROR + chain.value))
      else Ok(r1)
  }

  /** parse(u8*). */
  function ParseU8(r: Reader): (o: Result<Read<byte>>)
    ensures o.Ok? ==> |o.value.rest.input| < |r.input| && o.value.rest.res >= 0
    ensures o.Ok? ==> o.value.rest.session == r.session
    ensures r.res >= 0 ==> o == (if |r.input| < 1 then Err(SystemError(Eof))
                                 else Ok(Read(r.input[0], r.(input := r.input[1..]))))
    decreases |r.input|, 1
  {
    var r1 :- CheckResult(r);
    var b :- Take(r1, 1);
    Ok(Read(b.value[0], b.rest))
  }

  /** parse(u32*): four big-endian bytes. */
  function ParseU32(r: Reader): (o: Result<Read<nat>>)
    ensures o.Ok? ==> o.value.value < 0x1_0000_0000
    ensures o.Ok? ==> |o.value.rest.input| < |r.input| && o.value.rest.res >= 0
    ensures o.Ok? ==> o.value.rest.session == r.session
    ensures r.res >= 0 ==> o == (if |r.input| < 4 then Err(SystemError(Eof))
                                 else Ok(Read(Value(r.input[..4]), r.(input := r.input[4..]))))
    decreases |r.input|, 1
  {
    Pow256Values();
    var r1 :- CheckResult(r);
    var b :- Take(r1, 4);
    Ok(Read(Value(b.value), b.rest))
  }

  /** parse(string*): a length-prefixed string. A zero or ORIENT_NULL length leaves
      the destination as it was; any other length consumes exactly that many bytes. */
  function ParseString(r: Reader, dst: string): (o: Result<Read<string>>)
    ensures o.Ok? ==> |o.value.rest.input| < |r.input| && o.value.rest.res >= 0
    ensures o.Ok? ==> o.value.rest.session == r.session
    ensures r.res >= 0 && |r.input| < 4 ==> o == Err(SystemError(Eof))
    ensures r.res >= 0 && |r.input| >= 4 ==>
              var len := Value(r.input[..4]);
              if len == 0 || len == ORIENT_NULL then
                o == Ok(Read(dst, r.(input := r.input[4..])))
              else if 4 + len <= |r.input| then
                o == Ok(Read(Chars(r.input[4..4 + len]), r.(input := r.input[4 + len..])))
              else o == Err(SystemError(Eof))
    decreases |r.input|, 2
  {
    var r1 :- CheckResult(r);
    var len :- ParseU32(r1);
    if len.value != 0 && len.value != ORIENT_NULL then
      var bytes :- Take(len.rest, len.value);
      assert r.res >= 0 ==> bytes.value == r.input[4..4 + len.value];
      Ok(Read(Chars(bytes.value), bytes.rest))
    else Ok(Read(dst, len.rest))
  }

  /** parse_error: (marker, class, message) triples until a zero marker; each pair
      becomes "class: message", joined with ",". */
  function ParseError(r: Reader, acc: string): (o: Result<Read<string>>)
    ensures o.Ok? ==> |o.value.rest.input| < |r.input|
    decreases |r.input|, 3
  {
    var marker :- ParseU8(r);
    if marker.value == 0 then Ok(Read(acc, marker.rest))
    else
      var cls :- ParseString(marker.rest, "");
      var msg :- ParseString(cls.rest, "");
      var item := cls.value + ": " + msg.value;
      ParseError(msg.rest, if |acc| > 0 then acc + "," + item else item)
  }

  /** parse(u16*). */
  function ParseU16(r: Reader): (o: Result<Read<nat>>)
    ensures o.Ok? ==> o.value.value < 0x1_0000
    ensures o.Ok? ==> |o.value.rest.input| < |r.input| && o.value.rest.res >= 0
    ensures o.Ok? ==> o.value.rest.session == r.session
    ensures r.res >= 0 ==> o == (if |r.input| < 2 then Err(SystemError(Eof))
                                 else Ok(Read(Value(r.input[..2]), r.(input := r.input[2..]))))
  {
    Pow256Values();
    var r1 :- CheckResult(r);
    var b :- Take(r1, 2);
    Ok(Read(Value(b.value), b.rest))
  }

  /** parse(u64*). */
  function ParseU64(r: Reader): (o: Result<Read<nat>>)
    ensures o.Ok? ==> |o.value.rest.input| < |r.input| && o.value.rest.res >= 0
    ensures o.Ok? ==> o.value.rest.session == r.session && o.value.value < Pow256(8)
    ensures r.res >= 0 ==> o == (if |r.input| < 8 then Err(SystemError(Eof))
                                 else Ok(Read(Value(r.input[..8]), r.(input := r.input[8..]))))
  {
    var r1 :- CheckResult(r);
    var b :- Take(r1, 8);
    Ok(Read(Value(b.value), b.rest))
  }

  /** parse(s16*): the u16 bit pattern read as signed. */
  function ParseS16(r: Reader): (o: Result<Read<int>>)
    ensures o.Ok? ==> InSigned(o.value.value, 2)
    ensures o.Ok? ==> |o.value.rest.input| < |r.input| && o.value.rest.res >= 0
    ensures o.Ok? ==> o.value.rest.session == r.session
    ensures r.res >= 0 && |r.input| >= 2 ==>
              o == Ok(Read(Signed(Value(r.input[..2]), 2), r.(input := r.input[2..])))
  {
    Pow256Values();
    var v :- ParseU16(r);
    Ok(Read(Signed(v.value, 2), v.rest))
  }

  /** parse(s32*): the u32 bit pattern read as signed. */
  function ParseS32(r: Reader): (o: Result<Read<int>>)
    ensures o.Ok? ==> InSigned(o.value.value, 4)
    ensures o.Ok? ==> |o.value.rest.input| < |r.input| && o.value.rest.res >= 0
    ensures o.Ok? ==> o.value.rest.session == r.session
    ensures r.res >= 0 && |r.input| >= 4 ==>
              o == Ok(Read(Signed(Value(r.input[..4]), 4), r.(input := r.input[4..])))
  {
    Pow256Values();
    var v :- ParseU32(r);
    Ok(Read(Signed(v.value, 4), v.rest))
  }

  /** parse(s64*): the u64 bit pattern read as signed. */
  function ParseS64(r: Reader): (o: Result<Read<int>>)
    ensures o.Ok? ==> InSigned(o.value.value, 8)
    ensures o.Ok? ==> |o.value.rest.input| < |r.input| && o.value.rest.res >= 0
    ensures o.Ok? ==> o.value.rest.session == r.session
    ensures r.res >= 0 && |r.input| >= 8 ==>
              o == Ok(Read(Signed(Value(r.input[..8]), 8), r.(input := r.input[8..])))
  {
    Pow256Values();
    var v :- ParseU64(r);
    Ok(Read(Signed(v.value, 8), v.rest))
  }

  /** parse(orientsrv_buf*): a length-prefixed blob, with the same empty rule as strings. */
  function ParseBytes(r: Reader, dst: seq<byte>): (o: Result<Read<seq<byte>>>)
    ensures o.Ok? ==> |o.value.rest.input| < |r.input| && o.value.rest.res >= 0
    ensures o.Ok? ==> o.value.rest.session == r.session
    ensures r.res >= 0 && |r.input| < 4 ==> o == Err(SystemError(Eof))
    ensures r.res >= 0 && |r.input| >= 4 ==>
              var len := Value(r.input[..4]);
              if len == 0 || len == ORIENT_NULL then
                o == Ok(Read(dst, r.(input := r.input[4..])))
              else if 4 + len <= |r.input| then
                o == Ok(Read(r.input[4..4 + len], r.(input := r.input[4 + len..])))
              else o == Err(SystemError(Eof))
  {
    var r1 :- CheckResult(r);
    var len :- ParseU32(r1);
    if len.value != 0 && len.value != ORIENT_NULL then
      var bytes :- Take(len.rest, len.value);
      assert r.res >= 0 ==> bytes.value == r.input[4..4 + len.value];
      Ok(Read(bytes.value, bytes.rest))
    else Ok(Read(dst, len.rest))
  }

  /** parse(&session.id): an s32 session id. */
  function SessionId(r: Reader): (o: Result<Read<s32>>)
  {
    match ParseS32(r)
    case Err(e) => Err(e)
    case Ok(v) => Pow256Values(); Ok(Read(v.value, v.rest))
  }

  // ---- What a server writes, and what the reader recovers from it ----

  /** A string the wire can carry and give back: 8-bit, and shorter than ORIENT_NULL. */
  predicate Encodable(s: string)
  {
    IsLatin(s) && |s| < ORIENT_NULL
  }

  /** The response header: result byte, then the session id. */
  function Header(res: byte, sid: s32): seq<byte>
  {
    AppendS32([res], sid)
  }

  lemma NullLengthValue()
    ensures Value(NULL_LENGTH) == ORIENT_NULL
  {
    NullLengthBytes();
    ValueOfBigEndian(ORIENT_NULL, 4);
  }

  /** Where the three parts of a length-prefixed field lie. */
  lemma FieldParts(w: seq<byte>, head: seq<byte>, body: seq<byte>, rest: seq<byte>)
    requires |head| == 4 && w == head + body + rest
    ensures w[..4] == head && w[4..4 + |body|] == body && w[4 + |body|..] == rest
  {
  }

  /** A non-empty blob is written as its length and then its bytes. */
  lemma FieldLayout(b: seq<byte>)
    requires 0 < |b| < ORIENT_NULL
    ensures |b| < Pow256(4) && AppendBlob([], b) == BigEndian(|b|, 4) + b
  {
    Pow256Values();
    var head := BigEndian(|b|, 4);
    assert AppendBlob([], b) == [] + head + b;
    assert [] + head == head;
  }

  /** A non-empty length-prefixed field is read as its body, as a blob or as a string. */
  lemma BodyRead(r: Reader, body: seq<byte>, rest: seq<byte>, text: string)
    requires r.res >= 0 && 0 < |body| < ORIENT_NULL && Chars(body) == text
    requires r.input == BigEndian(|body|, 4) + body + rest
    ensures ParseBytes(r, []) == Ok(Read(body, r.(input := rest)))
    ensures ParseString(r, "") == Ok(Read(text, r.(input := rest)))
  {
    Pow256Values();
    ValueOfBigEndian(|body|, 4);
    FieldParts(r.input, BigEndian(|body|, 4), body, rest);
  }

  /** An empty field is the null length alone, and leaves the destination in place. */
  lemma NullRead(r: Reader, rest: seq<byte>, dst: string, bdst: seq<byte>)
    requires r.res >= 0 && r.input == NULL_LENGTH + rest
    ensures ParseBytes(r, bdst) == Ok(Read(bdst, r.(input := rest)))
    ensures ParseString(r, dst) == Ok(Read(dst, r.(input := rest)))
  {
    NullLengthValue();
    assert r.input[..4] == NULL_LENGTH && r.input[4..] == rest;
  }

  /** A length-prefixed string reads back as itself; an empty one leaves "" in place. */
  lemma StringFieldRoundTrip(r: Reader, s: string, rest: seq<byte>)
    requires r.res >= 0 && Encodable(s)
    requires r.input == Field(s) + rest
    ensures ParseString(r, "") == Ok(Read(s, r.(input := rest)))
  {
    if |s| == 0 {
      NullRead(r, rest, "", []);
    } else {
      FieldLayout(Octets(s));
      CharsOfOctets(s);
      BodyRead(r, Octets(s), rest, s);
    }
  }

  /** A length-prefixed blob reads back as itself; an empty one leaves [] in place. */
  lemma BlobFieldRoundTrip(r: Reader, b: seq<byte>, rest: seq<byte>)
    requires r.res >= 0 && |b| < ORIENT_NULL
    requires r.input == AppendBlob([], b) + rest
    ensures ParseBytes(r, []) == Ok(Read(b, r.(input := rest)))
  {
    if |b| == 0 {
      NullRead(r, rest, "", []);
    } else {
      FieldLayout(b);
      BodyRead(r, b, rest, Chars(b));
    }
  }

  /** Once check_result has passed, every typed reader reads as it would from the reader
      check_result returned. */
  lemma ReadsAfterHeader(r: Reader, r1: Reader)
    requires CheckResult(r) == Ok(r1)
    ensures ParseU8(r) == ParseU8(r1) && ParseU16(r) == ParseU16(r1) && ParseS32(r) == ParseS32(r1)
    ensures forall dst: string {:trigger ParseString(r, dst)} :: ParseString(r, dst) == ParseString(r1, dst)
  {
    assert CheckResult(r1) == Ok(r1);
  }

  /** An n-byte big-endian field is taken off the front of the input. */
  lemma FixedRead(input: seq<byte>, u: nat, n: nat, rest: seq<byte>)
    requires u < Pow256(n) && input == BigEndian(u, n) + rest
    ensures |input| >= n && Value(input[..n]) == u && input[n..] == rest
  {
    assert input[..n] == BigEndian(u, n);
    ValueOfBigEndian(u, n);
  }

  /** A u16 written big-endian reads back as itself. */
  lemma U16Read(r: Reader, v: u16, rest: seq<byte>)
    requires r.res >= 0 && r.input == BigEndian(v, 2) + rest
    ensures ParseU16(r) == Ok(Read(v, r.(input := rest)))
  {
    Pow256Values();
    FixedRead(r.input, v, 2, rest);
  }

  /** A byte reads back as itself. */
  lemma U8Read(r: Reader, v: byte, rest: seq<byte>)
    requires r.res >= 0 && r.input == [v] + rest
    ensures ParseU8(r) == Ok(Read(v, r.(input := rest)))
  {
    assert r.input[1..] == rest;
  }

  /** Two's-complement bytes of a signed 16-bit value read back as the value. */
  lemma S16Read(r: Reader, v: s16, rest: seq<byte>)
    requires r.res >= 0 && r.input == SignedBytes(v, 2) + rest
    ensures ParseS16(r) == Ok(Read(v, r.(input := rest)))
  {
    Pow256Values();
    FixedRead(r.input, Unsigned(v, 2), 2, rest);
    SignedOfUnsigned(v, 2);
  }

  /** Two's-complement bytes of a signed 64-bit value read back as the value. */
  lemma S64Read(r: Reader, v: s64, rest: seq<byte>)
    requires r.res >= 0 && r.input == SignedBytes(v, 8) + rest
    ensures ParseS64(r) == Ok(Read(v, r.(input := rest)))
  {
    Pow256Values();
    FixedRead(r.input, Unsigned(v, 8), 8, rest);
    SignedOfUnsigned(v, 8);
  }

  /** What a server writes for an n-byte signed value: its two's-complement bytes. */
  function SignedBytes(v: int, n: nat): (bs: seq<byte>)
    requires n == 2 || n == 8
    requires -0x8000_0000_0000_0000 <= v < 0x8000_0000_0000_0000 && (n == 2 ==> -0x8000 <= v < 0x8000)
    ensures |bs| == n
  {
    Pow256Values();
    BigEndian(Unsigned(v, n), n)
  }

  /** An s32 written as append(s32) writes it reads back as itself. */
  lemma S32Read(r: Reader, v: s32, rest: seq<byte>)
    requires r.res >= 0 && r.input == AppendS32([], v) + rest
    ensures ParseS32(r) == Ok(Read(v, r.(input := rest)))
  {
    var w := AppendS32([], v);
    assert w[0..] == w;
    assert r.input[..4] == w && r.input[4..] == rest;
  }

  /** A successful header for the reader's own session (or any session while not
      connected) is consumed, and the typed fields follow. */
  lemma HeaderAccepted(session: Session, sid: s32, payload: seq<byte>)
    requires !session.connected || session.id == sid
    ensures CheckResult(Start(Header(0, sid) + payload, session)) == Ok(Reader(payload, 0, session))
  {
    var input := Header(0, sid) + payload;
    assert input[0] == 0;
    assert input[1..5] == Header(0, sid)[1..];
    assert input[5..] == payload;
  }

  /** One entry of a server's exception chain. */
  datatype ServerException = ServerException(cls: string, msg: string)

  predicate EncodableChain(es: seq<ServerException>)
  {
    forall i | 0 <= i < |es| :: Encodable(es[i].cls) && Encodable(es[i].msg)
  }

  /** The chain as the server writes it: a 1 marker before each entry, a 0 at the end. */
  function ErrorChain(es: seq<ServerException>): seq<byte>
  {
    if es == [] then [0] else [1] + (Field(es[0].cls) + (Field(es[0].msg) + ErrorChain(es[1..])))
  }

  function Describe(e: ServerException): string
  {
    e.cls + ": " + e.msg
  }

  /** The descriptions of the chain's entries, separated by commas. */
  function JoinDescriptions(es: seq<ServerException>): string
  {
    if es == [] then ""
    else if |es| == 1 then Describe(es[0])
    else Describe(es[0]) + "," + JoinDescriptions(es[1..])
  }

  /** What parse_error returns after having collected `acc` already. */
  function Continued(acc: string, es: seq<ServerException>): string
  {
    if acc == "" then JoinDescriptions(es)
    else if es == [] then acc
    else acc + "," + JoinDescriptions(es)
  }

  lemma Regroup(a: seq<byte>, b: seq<byte>, c: seq<byte>, d: seq<byte>, e: seq<byte>)
    ensures (a + (b + (c + d))) + e == a + (b + (c + (d + e)))
  {
  }

  /** One step of parse_error over a well-formed entry. */
  lemma ParseErrorStep(r: Reader, acc: string, e: ServerException, tail: seq<byte>)
    requires r.res >= 0 && Encodable(e.cls) && Encodable(e.msg)
    requires r.input == [1] + (Field(e.cls) + (Field(e.msg) + tail))
    ensures ParseError(r, acc) == ParseError(r.(input := tail), if |acc| > 0 then acc + "," + Describe(e) else Describe(e))
  {
    var afterCls := r.(input := Field(e.msg) + tail);
    var afterMarker := r.(input := Field(e.cls) + afterCls.input);
    assert r.input[1..] == afterMarker.input;
    assert ParseU8(r) == Ok(Read(1, afterMarker));
    StringFieldRoundTrip(afterMarker, e.cls, afterCls.input);
    StringFieldRoundTrip(afterCls, e.msg, tail);
  }

  lemma ContinuedStep(acc: string, es: seq<ServerException>)
    requires es != []
    ensures Continued(if |acc| > 0 then acc + "," + Describe(es[0]) else Describe(es[0]), es[1..]) == Continued(acc, es)
  {
    var d := Describe(es[0]);
    if es[1..] != [] {
      var j := JoinDescriptions(es[1..]);
      assert JoinDescriptions(es) == d + "," + j;
      if acc != "" {
        assert acc + "," + (d + "," + j) == acc + "," + d + "," + j;
      }
    }
  }

  lemma {:induction false} ErrorChainRoundTrip(r: Reader, acc: string, es: seq<ServerException>, rest: seq<byte>)
    requires r.res >= 0 && EncodableChain(es)
    requires r.input == ErrorChain(es) + rest
    ensures ParseError(r, acc) == Ok(Read(Continued(acc, es), r.(input := rest)))
    decreases es
  {
    if es == [] {
      assert r.input == [0] + rest;
      assert ParseU8(r) == Ok(Read(0, r.(input := rest)));
    } else {
      var e := es[0];
      var tail := ErrorChain(es[1..]) + rest;
      Regroup([1], Field(e.cls), Field(e.msg), ErrorChain(es[1..]), rest);
      assert EncodableChain(es[1..]) by {
        forall i | 0 <= i < |es[1..]| ensures Encodable(es[1..][i].cls) && Encodable(es[1..][i].msg) {
          assert es[1..][i] == es[i + 1];
        }
      }
      assert Encodable(e.cls) && Encodable(e.msg) by { assert e == es[0]; }
      var acc' := if |acc| > 0 then acc + "," + Describe(e) else Describe(e);
      ParseErrorStep(r, acc, e, tail);
      ErrorChainRoundTrip(r.(input := tail), acc', es[1..], rest);
      ContinuedStep(acc, es);
    }
  }

  /** The header fields as check_result reads them back. */
  lemma HeaderFields(res: byte, sid: s32, more: seq<byte>)
    ensures |Header(res, sid) + more| >= 5
    ensures (Header(res, sid) + more)[0] == res
    ensures Signed(Value((Header(res, sid) + more)[1..5]), 4) == sid
    ensures (Header(res, sid) + more)[5..] == more
  {
    var h := Header(res, sid);
    assert h[..1] == [res];
    assert (h + more)[1..5] == h[1..];
  }

  /** A non-zero result raises the whole chain, prefixed, and nothing else. */
  lemma ServerErrorRaised(session: Session, res: byte, sid: s32, es: seq<ServerException>, rest: seq<byte>)
    requires 0 < res < 0x80
    requires !session.connected || session.id == sid
    requires EncodableChain(es)
    ensures CheckResult(Start(Header(res, sid) + (ErrorChain(es) + rest), session))
            == Err(Exception(SERVER_ERROR + JoinDescriptions(es)))
  {
    var r1 := Reader(ErrorChain(es) + rest, res, session);
    HeaderFields(res, sid, r1.input);
    ErrorChainRoundTrip(r1, "", es, rest);
  }

  lemma Assoc(a: string, b: string, c: string)
    ensures a + (b + c) == a + b + c
  {
  }

  /** A chain of one exception is reported as "orientsrv::Error: <class>: <message>". */
  lemma SingleServerError(session: Session, sid: s32, cls: string, msg: string)
    requires !session.connected || session.id == sid
    requires Encodable(cls) && Encodable(msg)
    ensures CheckResult(Start(Header(1, sid) + (ErrorChain([ServerException(cls, msg)]) + []), session))
            == Err(Exception("orientsrv::Error: " + cls + ": " + msg))
  {
    var es := [ServerException(cls, msg)];
    assert EncodableChain(es);
    ServerErrorRaised(session, 1, sid, es, []);
    assert JoinDescriptions(es) == cls + ": " + msg;
    Assoc(SERVER_ERROR, cls + ": ", msg);
    Assoc(SERVER_ERROR, cls, ": ");
  }
}
