/** Outbound frame construction: the orientsrv_buf append overloads, the
    unused safe_quote helper, the session record, and the request framing
    done by orientsrv::send. */
module Frame {
  import opened Wrappers
  import opened Bytes

  const DRIVER_NAME := "OrientPP"
  const DRIVER_VERSION := "v0.1"
  const DRIVER_PROTO_VERSION: u16 := 0xc
  const SERVER_PORT := "2424"
  /** The length value that stands for an empty (null) string or blob. */
  const ORIENT_NULL: u32 := 0xFFFF_FFFF

  // Binary protocol command codes used by the driver.
  const SHUTDOWN: byte := 1
  const CONNECT: byte := 2
  const DB_OPEN: byte := 3
  const DB_CREATE: byte := 4
  const DB_CLOSE: byte := 5
  const DB_EXIST: byte := 6
  const DB_DELETE: byte := 7
  const DB_SIZE: byte := 8
  const DB_COUNTRECORDS: byte := 9
  const COMMAND: byte := 41

  /** A server-assigned session: id -1 and not connected when there is none. */
  datatype Session = Session(id: s32, connected: bool)

  const NO_SESSION := Session(-1, false)

  /** A session that is not connected carries no id. */
  predicate Valid(s: Session)
  {
    !s.connected ==> s.id == -1
  }

  lemma Pow256Values()
    ensures Pow256(1) == 0x100 && Pow256(2) == 0x1_0000 && Pow256(4) == 0x1_0000_0000
    ensures Pow256(8) == 0x1_0000_0000_0000_0000
    ensures Half(1) == 0x80 && Half(2) == 0x8000 && Half(4) == 0x8000_0000
    ensures Half(8) == 0x8000_0000_0000_0000
  {
  }

  /** append(s32): four big-endian bytes holding v's two's-complement pattern. */
  function AppendS32(buf: seq<byte>, v: s32): (r: seq<byte>)
    ensures |r| == |buf| + 4 && r[..|buf|] == buf
    ensures Signed(Value(r[|buf|..]), 4) == v
  {
    Pow256Values();
    var u := Unsigned(v, 4);
    ValueOfBigEndian(u, 4);
    SignedOfUnsigned(v, 4);
    assert (buf + BigEndian(u, 4))[|buf|..] == BigEndian(u, 4);
    buf + BigEndian(u, 4)
  }

  /** append(u16): two big-endian bytes. */
  function AppendU16(buf: seq<byte>, v: u16): (r: seq<byte>)
    ensures |r| == |buf| + 2 && r[..|buf|] == buf
    ensures Value(r[|buf|..]) == v
  {
    Pow256Values();
    ValueOfBigEndian(v, 2);
    assert (buf + BigEndian(v, 2))[|buf|..] == BigEndian(v, 2);
    buf + BigEndian(v, 2)
  }

  /** append(u8): the byte itself. */
  function AppendU8(buf: seq<byte>, v: byte): (r: seq<byte>)
    ensures |r| == |buf| + 1 && r[..|buf|] == buf && r[|buf|] == v
  {
    buf + [v]
  }

  /** The four bytes written for an empty string or blob. */
  const NULL_LENGTH: seq<byte> := [0xFF, 0xFF, 0xFF, 0xFF]

  /** A length field: the u32 length cast to s32 and appended as append(s32) does. */
  function AppendLength(buf: seq<byte>, len: u32): (r: seq<byte>)
    ensures r == buf + BigEndian(len, 4)
  {
    Pow256Values();
    var r := AppendS32(buf, Signed(len, 4));
    UnsignedOfSigned(len, 4);
    assert Value(r[|buf|..]) == len;
    BigEndianOfValue(r[|buf|..]);
    assert r == r[..|buf|] + r[|buf|..];
    r
  }

  /** append(orientsrv_buf&): a blob with a 32-bit length prefix. The length is the
      size truncated to u32; a zero length is written as ORIENT_NULL. */
  function AppendBlob(buf: seq<byte>, b: seq<byte>): (r: seq<byte>)
    ensures |r| >= |buf| + 4 && r[..|buf|] == buf
    ensures 0 < |b| < 0x1_0000_0000 ==> r == buf + BigEndian(|b|, 4) + b
    ensures |b| == 0 ==> r == buf + NULL_LENGTH
  {
    var len: u32 := |b| % 0x1_0000_0000;
    Truncated(|b|);
    if len != 0 then
      LengthThen(buf, len, b[..len]);
      assert 0 < |b| < 0x1_0000_0000 ==> b[..len] == b;
      AppendLength(buf, len) + b[..len]
    else
      NullLengthBytes();
      LengthThen(buf, ORIENT_NULL, []);
      AppendLength(buf, ORIENT_NULL)
  }

  lemma Truncated(n: nat)
    ensures n < 0x1_0000_0000 ==> n % 0x1_0000_0000 == n
  {
  }

  /** A length field followed by t: the buffer is kept in front. */
  lemma LengthThen(buf: seq<byte>, len: u32, t: seq<byte>)
    ensures len < Pow256(4)
    ensures AppendLength(buf, len) + t == buf + BigEndian(len, 4) + t
    ensures |AppendLength(buf, len) + t| >= |buf| + 4 && (AppendLength(buf, len) + t)[..|buf|] == buf
    ensures AppendLength(buf, len) + [] == AppendLength(buf, len)
  {
    Pow256Values();
    var head := BigEndian(len, 4);
    assert (buf + head + t)[..|buf|] == buf;
  }

  lemma NullLengthBytes()
    ensures Pow256(4) == 0x1_0000_0000
    ensures BigEndian(ORIENT_NULL, 4) == NULL_LENGTH
  {
    Pow256Values();
    assert BigEndian(0xFF, 1) == [0xFF];
    assert BigEndian(0xFFFF, 2) == [0xFF, 0xFF];
    assert BigEndian(0xFF_FFFF, 3) == [0xFF, 0xFF, 0xFF];
  }

  /** append(string): the same layout as a blob, over the string's bytes. */
  function AppendString(buf: seq<byte>, s: string): (r: seq<byte>)
    ensures |r| >= |buf| + 4 && r[..|buf|] == buf
    ensures 0 < |s| < 0x1_0000_0000 ==> r == buf + BigEndian(|s|, 4) + Octets(s)
    ensures |s| == 0 ==> r == buf + NULL_LENGTH
  {
    AppendBlob(buf, Octets(s))
  }

  /** A length-prefixed string field on its own. */
  function Field(s: string): seq<byte>
  {
    AppendString([], s)
  }

  /** Appending a string to a buffer writes the same bytes as the string's field alone. */
  lemma AppendField(buf: seq<byte>, s: string)
    requires |s| < 0x1_0000_0000
    ensures AppendString(buf, s) == buf + Field(s)
  {
    if |s| > 0 {
      assert [] + BigEndian(|s|, 4) == BigEndian(|s|, 4);
    }
  }

  /** safe_quote: a backslash before every '"' and every '\\'. */
  function SafeQuote(s: string): (q: string)
    ensures |q| >= |s|
  {
    if s == [] then [] else Escaped(s[0]) + SafeQuote(s[1..])
  }

  /** A string with no quote and no backslash is left as it is. */
  lemma {:induction false} SafeQuotePlain(s: string)
    requires forall i | 0 <= i < |s| :: s[i] != '"' && s[i] != '\\'
    ensures SafeQuote(s) == s
  {
    if s != [] {
      assert s[0] != '"' && s[0] != '\\';
      assert forall i | 0 <= i < |s[1..]| :: s[1..][i] == s[i + 1];
      SafeQuotePlain(s[1..]);
      assert [s[0]] + s[1..] == s;
    }
  }

  /** One character as safe_quote writes it. */
  function Escaped(c: char): string
  {
    if c == '"' || c == '\\' then ['\\', c] else [c]
  }

  /** A request: the command byte, the 4-byte big-endian session id, then the body. */
  function Request(cmd: byte, sid: s32, body: seq<byte>): (frame: seq<byte>)
    ensures |frame| == 5 + |body|
  {
    AppendS32([cmd], sid) + (if |body| > 0 then body else [])
  }

  /** Where the parts of a request lie: the command byte first, the session id in the
      next four bytes, and the body after them. */
  lemma RequestFields(cmd: byte, sid: s32, body: seq<byte>)
    ensures var frame := Request(cmd, sid, body);
            frame[0] == cmd && Signed(Value(frame[1..5]), 4) == sid && frame[5..] == body
  {
    var head := AppendS32([cmd], sid);
    var frame := Request(cmd, sid, body);
    assert head[1..] == head[1..5];
    assert frame[1..5] == head[1..] && frame[5..] == body;
  }

  datatype Sent = Sent(frame: seq<byte>, bound: Session)

  /** orientsrv::send: frames the body with the explicitly given session's id, or with
      the server session's id when none is given; the response is bound to that session. */
  function Send(server: Session, cmd: byte, body: seq<byte>, explicit: Option<Session>): (s: Sent)
    ensures explicit.Some? ==> s.bound == explicit.value
    ensures explicit.None? ==> s.bound == server
    ensures s.frame == Request(cmd, s.bound.id, body)
  {
    var session := if explicit.Some? then explicit.value else server;
    Sent(Request(cmd, session.id, body), session)
  }
}
