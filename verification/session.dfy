/** The session rules of orientsrv and orientdb: the host/port split of a server URL,
    the CONNECT and DB_OPEN handshakes, the cluster table a DB_OPEN reply carries, and
    the reset a close performs. Each operation takes the bytes the server replies with
    and returns the frames it sends. */
module Connection {
  import opened Wrappers
  import opened Bytes
  import opened Text
  import opened Frame
  import opened Response
  import opened Retry

  // ---- The URL ----

  datatype Address = Address(host: string, port: string)

  /** The host and port connect takes from a URL: cut at the first ':' (strcspn, which
      also stops at a NUL), the port being the C string after it or "2424" when that is
      empty; without a cut the whole URL is the host and the port stays as it was. */
  function SplitUrl(url: string, port: string): (a: Address)
    ensures a.host <= url
    ensures SpanToColon(url) == |url| ==> a == Address(url, port)
    ensures SpanToColon(url) < |url| ==> |a.host| == SpanToColon(url) && a.port != []
  {
    var k := SpanToColon(url);
    if k != |url| then
      var p := CStr(url[k + 1..]);
      Address(url[..k], if p == [] then SERVER_PORT else p)
    else Address(url, port)
  }

  /** No ':' and no NUL. */
  predicate PlainPart(s: string)
  {
    forall i | 0 <= i < |s| :: s[i] != ':' && s[i] != '\0'
  }

  /** "host:port" is split back into its host and port; an empty port becomes the default. */
  lemma SplitUrlRoundTrip(host: string, port: string, kept: string)
    requires PlainPart(host) && forall i | 0 <= i < |port| :: port[i] != '\0'
    ensures SplitUrl(host + ":" + port, kept) == Address(host, if port == [] then SERVER_PORT else port)
  {
    var url := host + ":" + port;
    SpanColon(host, port);
    assert url[..|host|] == host && url[|host| + 1..] == port;
    CStrOfPlain(port);
  }

  /** A URL with neither ':' nor NUL is all host, and the port is left alone. */
  lemma SplitUrlNoColon(url: string, kept: string)
    requires PlainPart(url)
    ensures SplitUrl(url, kept) == Address(url, kept)
  {
    SpanAll(url);
  }

  lemma {:induction false} SpanColon(a: string, b: string)
    requires PlainPart(a)
    ensures SpanToColon(a + ":" + b) == |a|
    decreases a
  {
    if a != [] {
      assert (a + ":" + b)[1..] == a[1..] + ":" + b;
      assert PlainPart(a[1..]) by {
        forall i | 0 <= i < |a[1..]| ensures a[1..][i] != ':' && a[1..][i] != '\0' {
          assert a[1..][i] == a[i + 1];
        }
      }
      SpanColon(a[1..], b);
    }
  }

  lemma {:induction false} SpanAll(s: string)
    requires PlainPart(s)
    ensures SpanToColon(s) == |s|
    decreases s
  {
    if s != [] {
      assert PlainPart(s[1..]) by {
        forall i | 0 <= i < |s[1..]| ensures s[1..][i] != ':' && s[1..][i] != '\0' {
          assert s[1..][i] == s[i + 1];
        }
      }
      SpanAll(s[1..]);
    }
  }

  // ---- Handshake bodies ----

  /** The client id: the counter's next value (one more than the count so far), cast to
      a 32-bit int, which keeps its low 32 bits as a two's-complement number, in decimal. */
  function ClientId(count: nat): string
  {
    Pow256Values();
    Itoa(Signed((count + 1) % 0x1_0000_0000, 4))
  }

  /** Driver name, driver version, protocol version and client id: the common head of
      the CONNECT and DB_OPEN bodies. */
  function Greeting(count: nat): seq<byte>
  {
    AppendString(AppendU16(AppendString(Field(DRIVER_NAME), DRIVER_VERSION), DRIVER_PROTO_VERSION), ClientId(count))
  }

  /** The CONNECT body: the greeting, then user and password. */
  function ConnectBody(count: nat, user: string, pass: string): seq<byte>
  {
    AppendString(AppendString(Greeting(count), user), pass)
  }

  datatype DbKind = DocumentDb | GraphDb

  function KindName(k: DbKind): string
  {
    if k == DocumentDb then "document" else "graph"
  }

  /** The DB_OPEN body: the greeting, then database name, its kind, user and password. */
  function OpenBody(count: nat, db: string, kind: DbKind, user: string, pass: string): seq<byte>
  {
    AppendString(AppendString(AppendString(AppendString(Greeting(count), db), KindName(kind)), user), pass)
  }

  /** Lengths every field of a handshake can carry. */
  predicate Fits(s: string)
  {
    |s| < 0x1_0000_0000
  }

  lemma GreetingLayout(count: nat)
    ensures Greeting(count) == Field(DRIVER_NAME) + Field(DRIVER_VERSION) + BigEndian(0xc, 2) + Field(ClientId(count))
  {
    ClientIdFits(count);
    var head := AppendString(Field(DRIVER_NAME), DRIVER_VERSION);
    AppendField(Field(DRIVER_NAME), DRIVER_VERSION);
    AppendField(AppendU16(head, DRIVER_PROTO_VERSION), ClientId(count));
  }

  /** A client id is at most eleven characters: a sign and ten digits. */
  lemma ClientIdFits(count: nat)
    ensures 0 < |ClientId(count)| <= 11 && Fits(ClientId(count))
  {
    Pow256Values();
    var v := Signed((count + 1) % 0x1_0000_0000, 4);
    assert Pow10(10) == 10_000_000_000;
    if v < 0 {
      NatTextLength(-v, 10);
    } else {
      NatTextLength(v, 10);
    }
  }

  /** The CONNECT body is its six fields in order: name, version, 0x000c, client id, user, password. */
  lemma ConnectBodyLayout(count: nat, user: string, pass: string)
    requires Fits(user) && Fits(pass)
    ensures ConnectBody(count, user, pass)
            == Field(DRIVER_NAME) + Field(DRIVER_VERSION) + BigEndian(0xc, 2) + Field(ClientId(count))
               + Field(user) + Field(pass)
  {
    GreetingLayout(count);
    AppendField(Greeting(count), user);
    AppendField(AppendString(Greeting(count), user), pass);
  }

  /** The DB_OPEN body is its eight fields in order: name, version, 0x000c, client id,
      database, "document" or "graph", user, password. */
  lemma OpenBodyLayout(count: nat, db: string, kind: DbKind, user: string, pass: string)
    requires Fits(db) && Fits(user) && Fits(pass)
    ensures OpenBody(count, db, kind, user, pass)
            == Field(DRIVER_NAME) + Field(DRIVER_VERSION) + BigEndian(0xc, 2) + Field(ClientId(count))
               + Field(db) + Field(KindName(kind)) + Field(user) + Field(pass)
  {
    GreetingLayout(count);
    var b1 := AppendString(Greeting(count), db);
    var b2 := AppendString(b1, KindName(kind));
    var b3 := AppendString(b2, user);
    AppendField(Greeting(count), db);
    AppendField(b1, KindName(kind));
    AppendField(b2, user);
    AppendField(b3, pass);
  }

  // ---- orientsrv::connect ----

  /** The server handle: its session, where it connects, the credentials it keeps for a
      reconnect, the protocol version the server announced, and the client-id counter. */
  datatype Server = Server(
    session: Session,
    url: string,
    address: Address,
    user: string,
    pass: string,
    protocol: nat,
    count: nat)

  datatype Connected = Connected(server: Server, sent: seq<seq<byte>>, error: Option<Error>)

  const CONNECT_CONTEXT := "orientsrv::connect(): "

  /** The session a connect starts from: a connected server is closed first. */
  function Closed(s: Session): (c: Session)
    ensures !c.connected && (s.connected ==> c == NO_SESSION) && (!s.connected ==> c == s)
  {
    if s.connected then NO_SESSION else s
  }

  /** A connect failure: every error is raised again as an Exception naming connect. Its
      text is the error's what(), a C string, so it stops right before the first NUL. */
  function Failed(s: Server, sent: seq<seq<byte>>, e: Error): (c: Connected)
    ensures c.server == s && c.sent == sent
    ensures c.error.Some? && c.error.value.Exception?
    ensures var m := c.error.value.msg;
            CONNECT_CONTEXT <= m && m <= CONNECT_CONTEXT + What(e)
    ensures var m := c.error.value.msg;
            forall i | |CONNECT_CONTEXT| <= i < |m| :: m[i] != '\0'
    ensures var m, full := c.error.value.msg, CONNECT_CONTEXT + What(e);
            |m| < |full| ==> full[|m|] == '\0'
  {
    var t := CStr(What(e));
    assert forall i | |CONNECT_CONTEXT| <= i < |CONNECT_CONTEXT + t| :: (CONNECT_CONTEXT + t)[i] == t[i - |CONNECT_CONTEXT|];
    Connected(s, sent, Some(Exception(CONNECT_CONTEXT + t)))
  }

  /** An error text without a NUL is raised whole after the connect prefix. */
  lemma FailedWhole(s: Server, sent: seq<seq<byte>>, e: Error)
    requires forall i | 0 <= i < |What(e)| :: What(e)[i] != '\0'
    ensures Failed(s, sent, e).error == Some(Exception(CONNECT_CONTEXT + What(e)))
  {
    CStrOfPlain(What(e));
  }

  /** The CONNECT exchange: the credentials are kept, the counter hands out the client id,
      and the session id is read from the reply. */
  function Login(s: Server, user: string, pass: string, input: seq<byte>): (c: Connected)
    requires !s.session.connected
    ensures c.server.url == s.url && c.server.address == s.address
    ensures c.error.None? <==> c.server.session.connected
    ensures c.error.Some? ==> c.error.value.Exception? && CONNECT_CONTEXT <= c.error.value.msg
    ensures |c.sent| == 1
  {
    var s1 := s.(user := user, pass := pass, count := s.count + 1);
    var frame := Send(s1.session, CONNECT, ConnectBody(s.count, user, pass), None).frame;
    match SessionId(Start(input, s1.session))
    case Err(e) => Failed(s1, [frame], e)
    case Ok(sid) => Connected(s1.(session := Session(sid.value, true)), [frame], None)
  }

  /** connect: close a connected server, split the URL, read the two-byte protocol version,
      and send CONNECT (reading the new session id back) only when both user and password
      are non-empty. Any failure is raised as an Exception naming connect. */
  function Connect(srv: Server, url: string, user: string, pass: string, reply: seq<byte>): (c: Connected)
    ensures c.server.url == url && c.server.address == SplitUrl(url, srv.address.port)
    ensures c.error.None? <==> c.server.session.connected
    ensures c.error.Some? ==> c.error.value.Exception? && CONNECT_CONTEXT <= c.error.value.msg
    ensures |c.sent| <= 1 && (c.sent != [] <==> |reply| >= 2 && user != [] && pass != [])
    ensures c.error.None? && (user == [] || pass == []) ==>
              c.server.session == Closed(srv.session).(connected := true)
  {
    var s1 := srv.(session := Closed(srv.session), url := url, address := SplitUrl(url, srv.address.port));
    if |reply| < 2 then Failed(s1, [], SystemError(Eof))
    else
      var s2 := s1.(protocol := Value(reply[..2]));
      if user != [] && pass != [] then Login(s2, user, pass, reply[2..])
      else Connected(s2.(session := s2.session.(connected := true)), [], None)
  }

  /** A server that answers with its protocol version, a clean header and a session id
      hands that id to the connection; the one frame sent is CONNECT with the body above,
      under the session the close left behind. */
  lemma ConnectHandshake(srv: Server, url: string, user: string, pass: string,
                         proto: u16, sid: s32, id: s32, rest: seq<byte>)
    requires user != [] && pass != []
    ensures var reply := BigEndian(proto, 2) + (Header(0, sid) + (AppendS32([], id) + rest));
            var c := Connect(srv, url, user, pass, reply);
            c.error == None && c.server.session == Session(id, true) && c.server.protocol == proto
            && c.server.count == srv.count + 1 && c.server.user == user && c.server.pass == pass
            && c.sent == [Request(CONNECT, Closed(srv.session).id, ConnectBody(srv.count, user, pass))]
  {
    Pow256Values();
    var after := Header(0, sid) + (AppendS32([], id) + rest);
    var reply := BigEndian(proto, 2) + after;
    FixedRead(reply, proto, 2, after);
    var session := Closed(srv.session);
    HeaderAccepted(session, sid, AppendS32([], id) + rest);
    var r1 := Reader(AppendS32([], id) + rest, 0, session);
    ReadsAfterHeader(Start(after, session), r1);
    S32Read(r1, id, rest);
  }

  /** A server that refuses the login has its exception chain raised under connect's
      prefix, cut at the first NUL as string(e.what()) cuts it. */
  lemma ConnectServerError(srv: Server, url: string, user: string, pass: string,
                           proto: u16, sid: s32, cls: string, msg: string)
    requires user != [] && pass != []
    requires Encodable(cls) && Encodable(msg)
    ensures var reply := BigEndian(proto, 2) + (Header(1, sid) + (ErrorChain([ServerException(cls, msg)]) + []));
            Connect(srv, url, user, pass, reply).error
            == Some(Exception(CONNECT_CONTEXT + CStr(SERVER_ERROR + cls + ": " + msg)))
  {
    var after := Header(1, sid) + (ErrorChain([ServerException(cls, msg)]) + []);
    var reply := BigEndian(proto, 2) + after;
    var e := Exception(SERVER_ERROR + cls + ": " + msg);
    assert SessionId(Start(after, Closed(srv.session))) == Err(e) by {
      SingleServerError(Closed(srv.session), sid, cls, msg);
      IdRefused(Start(after, Closed(srv.session)), e);
    }
    assert reply[2..] == after by {
      FixedRead(reply, proto, 2, after);
    }
    ConnectLogin(srv, url, user, pass, reply, e);
  }

  /** A session id is not read when the header before it fails. */
  lemma IdRefused(r: Reader, e: Error)
    requires CheckResult(r) == Err(e)
    ensures SessionId(r) == Err(e)
  {
  }

  /** With a version and both credentials, connect is the login, and a failing login
      raises its error under connect's prefix. */
  lemma ConnectLogin(srv: Server, url: string, user: string, pass: string, reply: seq<byte>, e: Error)
    requires |reply| >= 2 && user != [] && pass != []
    requires SessionId(Start(reply[2..], Closed(srv.session))) == Err(e)
    ensures Connect(srv, url, user, pass, reply).error == Some(Exception(CONNECT_CONTEXT + CStr(What(e))))
  {
  }

  /** A class name holding a NUL: the driver's message ends right before it. */
  lemma ConnectNulCut(srv: Server, url: string, proto: u16, sid: s32)
    ensures var cls := "a" + ['\0'] + "b";
            var reply := BigEndian(proto, 2) + (Header(1, sid) + (ErrorChain([ServerException(cls, "m")]) + []));
            Connect(srv, url, "user", "pass", reply).error
            == Some(Exception("orientsrv::connect(): orientsrv::Error: a"))
  {
    var cls := "a" + ['\0'] + "b";
    assert Encodable(cls) && Encodable("m") by {
      assert IsLatin(cls) && IsLatin("m");
    }
    ConnectServerError(srv, url, "user", "pass", proto, sid, cls, "m");
    NulCutText();
  }

  lemma NulCutText()
    ensures CONNECT_CONTEXT + CStr(SERVER_ERROR + ("a" + ['\0'] + "b") + ": " + "m")
            == "orientsrv::connect(): orientsrv::Error: a"
  {
    assert CStr(SERVER_ERROR + ("a" + ['\0'] + "b") + ": " + "m") == SERVER_ERROR + "a" by {
      ServerErrorCut("a", "b", "m");
    }
    RefusalText();
  }

  lemma RefusalText()
    ensures CONNECT_CONTEXT + (SERVER_ERROR + "a") == "orientsrv::connect(): orientsrv::Error: a"
  {
  }

  /** The C string of a server error stops at the first NUL of its class name. */
  lemma ServerErrorCut(name: string, rest: string, msg: string)
    requires forall i | 0 <= i < |name| :: name[i] != '\0'
    ensures CStr(SERVER_ERROR + (name + ['\0'] + rest) + ": " + msg) == SERVER_ERROR + name
  {
    var head := SERVER_ERROR + name;
    assert forall i | 0 <= i < |head| :: head[i] != '\0' by {
      assert forall i | 0 <= i < |SERVER_ERROR| :: SERVER_ERROR[i] != '\0';
    }
    assert SERVER_ERROR + (name + ['\0'] + rest) + ": " + msg == head + ['\0'] + (rest + ": " + msg);
    CStrCut(head, rest + ": " + msg);
  }

  // ---- orientdb::close ----

  /** The database handle: its own session and what it was opened with. */
  datatype Db = Db(session: Session, name: string, kind: DbKind, user: string, pass: string)

  datatype Shut = Shut(db: Db, sent: seq<seq<byte>>)

  /** close: nothing when the database is not connected; otherwise DB_CLOSE is sent under
      the database's session (no reply is read) and the session is reset. */
  function CloseDb(db: Db, server: Session): (s: Shut)
    ensures !db.session.connected ==> s == Shut(db, [])
    ensures db.session.connected ==>
              s.db == db.(session := NO_SESSION) && s.sent == [Request(DB_CLOSE, db.session.id, [])]
  {
    if !db.session.connected then Shut(db, [])
    else Shut(db.(session := NO_SESSION), [Send(server, DB_CLOSE, [], Some(db.session)).frame])
  }

  /** Closing twice sends DB_CLOSE once: the second close finds nothing to do. */
  lemma CloseTwice(db: Db, server: Session)
    ensures var first := CloseDb(db, server);
            CloseDb(first.db, server) == Shut(first.db, []) && !first.db.session.connected
            && |first.sent| <= 1
  {
  }

  // ---- The cluster table of a DB_OPEN reply ----

  const TOO_BIG_CLUSTER := "Too big cluster number !"

  /** One entry of the cluster loop: name, id, kind and segment. The value says whether an
      entry was read; an empty name marks the end of the table instead, and an id above
      num is an error. */
  function ReadEntry(r: Reader, num: nat): (o: Result<Read<bool>>)
    ensures o.Ok? ==> o.value.rest.res >= 0
  {
    var name :- ParseString(r, "");
    if name.value == [] then Ok(Read(false, name.rest))
    else
      var id :- ParseU16(name.rest);
      if id.value > num then Err(Exception(TOO_BIG_CLUSTER))
      else
        var kind :- ParseString(id.rest, "");
        var segment :- ParseU16(kind.rest);
        Ok(Read(true, segment.rest))
  }

  /** The cluster loop of open: up to num entries, stopping early at an empty name. */
  function ClusterLoop(r: Reader, num: nat, got: nat): (o: Result<Read<nat>>)
    requires got <= num
    ensures o.Ok? ==> got <= o.value.value <= num
    decreases num - got
  {
    if got == num then Ok(Read(got, r))
    else
      var entry :- ReadEntry(r, num);
      if entry.value then ClusterLoop(entry.rest, num, got + 1) else Ok(Read(got, entry.rest))
  }

  /** The table after the session id: its reported size, the loop, and the configuration
      blob, which is read only when the loop read as many entries as reported. */
  function ReadClusters(r: Reader): (o: Result<Read<nat>>)
  {
    var num :- ParseU16(r);
    var read :- ClusterLoop(num.rest, num.value, 0);
    if read.value == num.value then
      var config :- ParseBytes(read.rest, []);
      Ok(Read(read.value, config.rest))
    else Ok(read)
  }

  /** One entry of the table as the server writes it. */
  datatype Cluster = Cluster(name: string, id: u16, kind: string, segment: u16)

  /** An entry's fields, followed by what comes after it. */
  function Entry(c: Cluster, after: seq<byte>): seq<byte>
  {
    Field(c.name) + (BigEndian(c.id, 2) + (Field(c.kind) + (BigEndian(c.segment, 2) + after)))
  }

  /** The entries from position i on, in order, followed by what comes after them. */
  function Table(cs: seq<Cluster>, i: nat, after: seq<byte>): seq<byte>
    requires i <= |cs|
    decreases |cs| - i
  {
    if i == |cs| then after else Entry(cs[i], Table(cs, i + 1, after))
  }

  /** Entries the loop accepts: a non-empty name, an id not above num, encodable texts. */
  predicate Accepted(c: Cluster, num: nat)
  {
    c.name != [] && Encodable(c.name) && Encodable(c.kind) && c.id <= num
  }

  /** One accepted entry is read whole. */
  lemma EntryRead(r: Reader, num: nat, c: Cluster, rest: seq<byte>)
    requires r.res >= 0 && Accepted(c, num)
    requires r.input == Entry(c, rest)
    ensures ReadEntry(r, num) == Ok(Read(true, r.(input := rest)))
  {
    var afterKind := BigEndian(c.segment, 2) + rest;
    var afterId := Field(c.kind) + afterKind;
    var afterName := BigEndian(c.id, 2) + afterId;
    var r1 := r.(input := afterName);
    var r2 := r.(input := afterId);
    var r3 := r.(input := afterKind);
    StringFieldRoundTrip(r, c.name, afterName);
    U16Read(r1, c.id, afterId);
    StringFieldRoundTrip(r2, c.kind, afterKind);
    U16Read(r3, c.segment, rest);
    EntryFields(r, num, c, r1, r2, r3, r.(input := rest));
  }

  /** The entry reader in terms of its four field reads. */
  lemma EntryFields(r: Reader, num: nat, c: Cluster, r1: Reader, r2: Reader, r3: Reader, r4: Reader)
    requires c.name != [] && c.id <= num
    requires ParseString(r, "") == Ok(Read(c.name, r1)) && ParseU16(r1) == Ok(Read(c.id as nat, r2))
    requires ParseString(r2, "") == Ok(Read(c.kind, r3)) && ParseU16(r3) == Ok(Read(c.segment as nat, r4))
    ensures ReadEntry(r, num) == Ok(Read(true, r4))
  {
  }

  /** The readers positioned at each entry of a table and, last, after it. */
  function Readers(r: Reader, cs: seq<Cluster>, rest: seq<byte>): (rs: seq<Reader>)
    ensures |rs| == |cs| + 1
    ensures forall k | 0 <= k <= |cs| :: rs[k] == r.(input := Table(cs, k, rest))
  {
    seq(|cs| + 1, k requires 0 <= k <= |cs| => r.(input := Table(cs, k, rest)))
  }

  /** Every entry of a table of accepted entries is read whole and counted. */
  lemma TableEntries(r: Reader, num: nat, cs: seq<Cluster>, rest: seq<byte>)
    requires r.res >= 0 && |cs| <= num && forall j | 0 <= j < |cs| :: Accepted(cs[j], num)
    ensures var rs := Readers(r, cs, rest);
            forall k | 0 <= k < |cs| :: Linked(rs, num, k)
  {
    var rs := Readers(r, cs, rest);
    forall k | 0 <= k < |cs|
      ensures Linked(rs, num, k)
    {
      EntryRead(rs[k], num, cs[k], Table(cs, k + 1, rest));
      assert rs[k].(input := Table(cs, k + 1, rest)) == rs[k + 1];
      LoopStep(rs[k], num, k, rs[k + 1]);
    }
  }

  /** One entry read whole moves the loop to the next reader, one more cluster counted. */
  lemma LoopStep(r: Reader, num: nat, got: nat, next: Reader)
    requires got < num && ReadEntry(r, num) == Ok(Read(true, next))
    ensures ClusterLoop(r, num, got) == ClusterLoop(next, num, got + 1)
  {
  }

  /** Reader k of a chain leads the loop, at got = k, on to reader k + 1. */
  predicate Linked(rs: seq<Reader>, num: nat, k: nat)
  {
    k + 1 < |rs| && k < num && ClusterLoop(rs[k], num, k) == ClusterLoop(rs[k + 1], num, k + 1)
  }

  /** Neighbours k and k + 1 of a sequence are equal. */
  predicate SameNext<T(==)>(vs: seq<T>, k: nat)
  {
    k + 1 < |vs| && vs[k] == vs[k + 1]
  }

  /** A sequence whose neighbours from i on are equal ends with its element at i. */
  lemma {:induction false} Chain<T>(vs: seq<T>, i: nat)
    requires i < |vs| && forall k | i <= k < |vs| - 1 :: SameNext(vs, k)
    ensures vs[i] == vs[|vs| - 1]
    decreases |vs| - i
  {
    if i < |vs| - 1 {
      assert SameNext(vs, i);
      Chain(vs, i + 1);
    }
  }

  /** The loop runs through a table of accepted entries, counting each. */
  lemma TableRead(r: Reader, num: nat, cs: seq<Cluster>, rest: seq<byte>)
    requires r.res >= 0 && |cs| <= num && forall j | 0 <= j < |cs| :: Accepted(cs[j], num)
    ensures ClusterLoop(r.(input := Table(cs, 0, rest)), num, 0) == ClusterLoop(r.(input := rest), num, |cs|)
  {
    var rs := Readers(r, cs, rest);
    TableEntries(r, num, cs, rest);
    var vs := seq(|cs| + 1, k requires 0 <= k <= |cs| => ClusterLoop(rs[k], num, k));
    forall k | 0 <= k < |cs|
      ensures SameNext(vs, k)
    {
      assert Linked(rs, num, k);
    }
    Chain(vs, 0);
  }

  /** A full table of num accepted entries reads num clusters and stops. */
  lemma FullTable(r: Reader, cs: seq<Cluster>, rest: seq<byte>)
    requires r.res >= 0 && forall j | 0 <= j < |cs| :: Accepted(cs[j], |cs|)
    requires r.input == Table(cs, 0, rest)
    ensures ClusterLoop(r, |cs|, 0) == Ok(Read(|cs|, r.(input := rest)))
  {
    TableRead(r, |cs|, cs, rest);
    assert r.(input := Table(cs, 0, rest)) == r;
    LoopDone(r.(input := rest), |cs|);
  }

  /** With as many entries read as reported, the loop stops where it is. */
  lemma LoopDone(r: Reader, num: nat)
    ensures ClusterLoop(r, num, num) == Ok(Read(num, r))
  {
  }

  /** An empty name is read as the end of the table. */
  lemma TableEnd(r: Reader, num: nat, rest: seq<byte>)
    requires r.res >= 0 && r.input == NULL_LENGTH + rest
    ensures ReadEntry(r, num) == Ok(Read(false, r.(input := rest)))
  {
    NullRead(r, rest, "", []);
  }

  /** The end of the table stops the loop with the count so far. */
  lemma LoopEnds(r: Reader, num: nat, got: nat, next: Reader)
    requires got < num && ReadEntry(r, num) == Ok(Read(false, next))
    ensures ClusterLoop(r, num, got) == Ok(Read(got, next))
  {
  }

  /** A table cut short by an empty name reads the entries before it. */
  lemma ShortTable(r: Reader, num: nat, cs: seq<Cluster>, rest: seq<byte>)
    requires r.res >= 0 && |cs| < num && forall j | 0 <= j < |cs| :: Accepted(cs[j], num)
    requires r.input == Table(cs, 0, NULL_LENGTH + rest)
    ensures ClusterLoop(r, num, 0) == Ok(Read(|cs|, r.(input := rest)))
  {
    TableRead(r, num, cs, NULL_LENGTH + rest);
    assert r.(input := Table(cs, 0, NULL_LENGTH + rest)) == r;
    var r1 := r.(input := NULL_LENGTH + rest);
    TableEnd(r1, num, rest);
    assert r1.(input := rest) == r.(input := rest);
    LoopEnds(r1, num, |cs|, r.(input := rest));
  }

  /** An entry whose id is above the reported count is refused. */
  lemma TooBigCluster(r: Reader, num: nat, got: nat, c: Cluster, rest: seq<byte>)
    requires r.res >= 0 && got < num && c.name != [] && Encodable(c.name) && c.id > num
    requires r.input == Entry(c, rest)
    ensures ClusterLoop(r, num, got) == Err(Exception(TOO_BIG_CLUSTER))
  {
    var afterId := Field(c.kind) + (BigEndian(c.segment, 2) + rest);
    var afterName := BigEndian(c.id, 2) + afterId;
    assert ReadEntry(r, num) == Err(Exception(TOO_BIG_CLUSTER)) by {
      StringFieldRoundTrip(r, c.name, afterName);
      U16Read(r.(input := afterName), c.id, afterId);
    }
  }

  // ---- One DB_OPEN attempt ----

  /** The replies open reads, in order: to the reconnect of a disconnected server, to the
      first DB_OPEN, to the reconnect after a lost connection, to the second DB_OPEN. */
  datatype OpenReplies = OpenReplies(link: seq<byte>, first: seq<byte>, relink: seq<byte>, second: seq<byte>)

  datatype Opening = Opening(db: Db, server: Server, sent: seq<seq<byte>>, clusters: nat, error: Option<Error>)

  /** The body of open's try block, run on top of what came before: record what is
      opened, send DB_OPEN under the database's session (the frame is added to those
      sent, and the client-id counter moves on), read the new session id (the database is
      connected from then on), then the cluster table. Errors are returned as raised. */
  function OpenAttempt(pre: Opening, name: string, kind: DbKind, user: string, pass: string,
                       reply: seq<byte>): (o: Opening)
    ensures o.sent == pre.sent + [Request(DB_OPEN, pre.db.session.id, OpenBody(pre.server.count, name, kind, user, pass))]
    ensures o.server == pre.server.(count := pre.server.count + 1)
    ensures o.db.name == name && o.db.kind == kind && o.db.user == user && o.db.pass == pass
    ensures o.error.None? ==> Opens(o.db, name, kind, user, pass)
  {
    var d1 := Db(pre.db.session, name, kind, user, pass);
    var s1 := pre.server.(count := pre.server.count + 1);
    var frame := Send(pre.server.session, DB_OPEN, OpenBody(pre.server.count, name, kind, user, pass), Some(d1.session)).frame;
    var sent := pre.sent + [frame];
    match SessionId(Start(reply, d1.session))
    case Err(e) => Opening(d1, s1, sent, 0, Some(e))
    case Ok(sid) =>
      var d2 := d1.(session := Session(sid.value, true));
      match ReadClusters(sid.rest)
      case Err(e) => Opening(d2, s1, sent, 0, Some(e))
      case Ok(n) => Opening(d2, s1, sent, n.value, None)
  }

  /** The cluster table of a well-formed reply: its size and the entries, followed by
      what reads as the configuration blob. */
  lemma ClustersRead(r: Reader, cs: seq<Cluster>, after: seq<byte>, config: seq<byte>, r3: Reader)
    requires r.res >= 0 && |cs| < 0x1_0000 && forall j | 0 <= j < |cs| :: Accepted(cs[j], |cs|)
    requires r.input == BigEndian(|cs|, 2) + Table(cs, 0, after)
    requires ParseBytes(r.(input := after), []) == Ok(Read(config, r3))
    ensures ReadClusters(r) == Ok(Read(|cs|, r3))
  {
    var tail := Table(cs, 0, after);
    U16Read(r, |cs|, tail);
    FullTable(r.(input := tail), cs, after);
    ClustersFrom(r, |cs|, |cs|, r.(input := tail), r.(input := after), config, r3);
  }

  /** ReadClusters in terms of its reads: the size, the loop, and the configuration when
      the loop counted as many entries as the size says. */
  lemma ClustersFrom(r: Reader, num: u16, got: nat, r1: Reader, r2: Reader, config: seq<byte>, r3: Reader)
    requires got <= num && ParseU16(r) == Ok(Read(num as nat, r1)) && ClusterLoop(r1, num, 0) == Ok(Read(got, r2))
    requires got == num ==> ParseBytes(r2, []) == Ok(Read(config, r3))
    ensures ReadClusters(r) == Ok(Read(got, if got == num then r3 else r2))
  {
  }

  /** A table cut short: the configuration is not read, and the loop's count is kept. */
  lemma ShortClusters(r: Reader, num: u16, cs: seq<Cluster>, rest: seq<byte>)
    requires r.res >= 0 && |cs| < num && forall j | 0 <= j < |cs| :: Accepted(cs[j], num)
    requires r.input == BigEndian(num, 2) + Table(cs, 0, NULL_LENGTH + rest)
    ensures ReadClusters(r) == Ok(Read(|cs|, r.(input := rest)))
  {
    var tail := Table(cs, 0, NULL_LENGTH + rest);
    U16Read(r, num, tail);
    ShortTable(r.(input := tail), num, cs, rest);
    ClustersFrom(r, num, |cs|, r.(input := tail), r.(input := rest), [], r);
  }

  /** A server that accepts DB_OPEN: a clean header, the new session id, and a full
      cluster table. The database is then connected under that id, with every cluster. */
  lemma OpenHandshake(pre: Opening, name: string, kind: DbKind, user: string, pass: string,
                      sid: s32, id: s32, cs: seq<Cluster>, config: seq<byte>, rest: seq<byte>)
    requires !pre.db.session.connected || pre.db.session.id == sid
    requires |cs| < 0x1_0000 && |config| < ORIENT_NULL
    requires forall j | 0 <= j < |cs| :: Accepted(cs[j], |cs|)
    ensures var payload := BigEndian(|cs|, 2) + Table(cs, 0, AppendBlob([], config) + rest);
            var o := OpenAttempt(pre, name, kind, user, pass, Header(0, sid) + (AppendS32([], id) + payload));
            o.error == None && o.db.session == Session(id, true) && o.clusters == |cs|
  {
    var payload := BigEndian(|cs|, 2) + Table(cs, 0, AppendBlob([], config) + rest);
    var body := AppendS32([], id) + payload;
    var session := pre.db.session;
    HeaderAccepted(session, sid, body);
    var r1 := Reader(body, 0, session);
    var r2 := r1.(input := payload);
    assert SessionId(Start(Header(0, sid) + body, session)) == Ok(Read(id, r2)) by {
      ReadsAfterHeader(Start(Header(0, sid) + body, session), r1);
      S32Read(r1, id, payload);
    }
    var after := AppendBlob([], config) + rest;
    assert ParseBytes(r2.(input := after), []) == Ok(Read(config, r2.(input := rest))) by {
      BlobFieldRoundTrip(r2.(input := after), config, rest);
    }
    ClustersRead(r2, cs, after, config, r2.(input := rest));
  }

  // ---- orientdb::open ----

  /** orientdb::reconnect: the database loses its session and the server connects again
      with the address and credentials it kept. */
  function Reconnect(db: Db, srv: Server, reply: seq<byte>): (o: Opening)
    ensures o.db == db.(session := NO_SESSION) && o.clusters == 0
    ensures o.error.None? <==> o.server.session.connected
    ensures o.error.Some? ==> o.error.value.Exception?
  {
    var c := Connect(srv, srv.url, srv.user, srv.pass, reply);
    Opening(db.(session := NO_SESSION), c.server, c.sent, 0, c.error)
  }

  /** The start of open: reconnect a disconnected server, then close the database if it
      is open. A failed reconnect ends open with its Exception. */
  function Prelude(db: Db, srv: Server, link: seq<byte>): (o: Opening)
    ensures o.error.Some? ==> o.error.value.Exception?
    ensures o.error.None? ==> o.server.session.connected && !o.db.session.connected
    ensures srv.session.connected ==> o.error.None? && o.server == srv
  {
    var o1 := if srv.session.connected then Opening(db, srv, [], 0, None) else Reconnect(db, srv, link);
    if o1.error.Some? then o1
    else
      var shut := CloseDb(o1.db, o1.server.session);
      Opening(shut.db, o1.server, o1.sent + shut.sent, 0, None)
  }

  /** open's catch, given the first run, the reconnect a lost connection triggers, and
      the second run: a lost connection moves on to the reconnect and, if that connects,
      to the second run; anything else, or a second failure, is raised as the catch says. */
  function Settle(a: Opening, c: Opening, b: Opening): (o: Opening)
    requires c.error.Some? ==> c.error.value.Exception?
    ensures a.error.None? ==> o == a
    ensures o.error.Some? ==> o.error.value.Exception?
    ensures o.error.None? ==> (a.error.None? && o == a) || (b.error.None? && o == b)
  {
    match a.error
    case None => a
    case Some(e) =>
      match Decide(e, false, OPEN_CONTEXT)
      case Raise(x) => a.(error := Some(x))
      case Again =>
        if c.error.Some? then c.(sent := a.sent + c.sent)
        // reconnecting is now set, so the catch raises whatever the second run throws
        else if b.error.Some? then b.(error := Some(Raised(b.error.value, OPEN_CONTEXT)))
        else b
  }

  /** The database is open under what open was given. */
  predicate Opens(db: Db, name: string, kind: DbKind, user: string, pass: string)
  {
    db.session.connected && db.name == name && db.kind == kind && db.user == user && db.pass == pass
  }

  /** open's try block with its catch: the first run, the reconnect, the second run. */
  function OpenRuns(pre: Opening, name: string, kind: DbKind, user: string, pass: string, replies: OpenReplies): (o: Opening)
    ensures o.error.Some? ==> o.error.value.Exception?
    ensures o.error.None? ==> Opens(o.db, name, kind, user, pass)
  {
    var a := OpenAttempt(pre, name, kind, user, pass, replies.first);
    var c := Reconnect(a.db, a.server, replies.relink);
    var b := OpenAttempt(c.(sent := a.sent + c.sent), name, kind, user, pass, replies.second);
    assert a.error.None? ==> Opens(a.db, name, kind, user, pass);
    assert b.error.None? ==> Opens(b.db, name, kind, user, pass);
    Settle(a, c, b)
  }

  /** orientdb::open. */
  function OpenDb(db: Db, srv: Server, name: string, kind: DbKind, user: string, pass: string,
                  replies: OpenReplies): (o: Opening)
    ensures o.error.Some? ==> o.error.value.Exception?
    ensures o.error.None? ==> Opens(o.db, name, kind, user, pass)
  {
    var pre := Prelude(db, srv, replies.link);
    if pre.error.Some? then pre else OpenRuns(pre, name, kind, user, pass, replies)
  }

  /** The result of open as a value: the cluster count, or the error raised. */
  function Outcome(o: Opening): Result<nat>
  {
    if o.error.None? then Ok(o.clusters) else Err(o.error.value)
  }

  /** open's catch follows the retry policy: its outcome is the reference outcome of the
      first run and of the reconnect-and-run-again that a lost connection triggers. */
  lemma SettleRetried(a: Opening, c: Opening, b: Opening)
    requires c.error.Some? ==> c.error.value.Exception?
    ensures var second := if c.error.Some? then Err(c.error.value) else Outcome(b);
            Outcome(Settle(a, c, b)) == Retried(Outcome(a), second, OPEN_CONTEXT)
  {
  }

  /** The frames of a settled open: the first run's, and only after a lost connection the
      reconnect's and the second run's. */
  lemma SettleSends(a: Opening, c: Opening, b: Opening)
    requires c.error.Some? ==> c.error.value.Exception?
    requires a.sent + c.sent <= b.sent
    ensures a.error.None? || !IsConnectionLoss(a.error.value) ==> Settle(a, c, b).sent == a.sent
    ensures a.error.Some? && IsConnectionLoss(a.error.value) ==>
              Settle(a, c, b).sent == a.sent + c.sent + (if c.error.None? then b.sent[|a.sent + c.sent|..] else [])
  {
  }
}
