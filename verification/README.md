# orientpp protocol core in Dafny

This project models the core of orientpp, a C++ client driver for the OrientDB binary network protocol. The model covers five parts of the driver:

- **Request frames.** These are built by `orientsrv_buf` and `orientsrv::send`. Integers are big-endian. Strings and blobs carry a 32-bit length prefix, and an empty one is written as the null length `FF FF FF FF`. A request is a command byte, then the session id, then the body. The model also includes the CONNECT, DB_OPEN and COMMAND bodies.
- **The response reader `orientrsp`.** The result header is read lazily and at most once. The session id is checked against the connected session. A non-zero result unwinds the server's exception chain into one `class: message, ...` text. The typed readers (u8, u16, u32, u64, their signed forms, strings and blobs) are included.
- **Record decoding.** This covers:
  - `parse_record`, which dispatches on the record header (-2, -3, 0);
  - `parse_records_collection`;
  - the payload-status dispatch of `orientquery::execute`;
  - the cluster table that `orientdb::open` reads.
- **The document text grammar.** This is `orient_record_t::add_property`, with its string, link, boolean, array, map and bare-number branches, and the `parse()` loop that fills in a record's class and named properties. Around them are:
  - the lazy, memoised parse;
  - the accessors `has_property`, `get_property` and `classof`;
  - the string forms of `rid_t` and records;
  - the property type names and `operator int`.
- **The session rules.** These are:
  - the host/port split of a URL in `orientsrv::connect`;
  - the connect handshake;
  - `orientdb::close`;
  - `orientdb::open` with its cluster loop;
  - the retry-once policy of `open` and `execute`. After an end of file or a broken pipe, the operation reconnects and runs its body once more. Any other transport error is raised as an Exception naming the operation.

The network is replaced by values. Each operation takes the bytes the server answers with as a `seq<byte>`, and returns the frames it sent next to its result. A stream that ends early yields the transport error `SystemError(Eof)`, which is what a short read raises in the driver. C++ exceptions are `Err` values of a `Result` type. `SystemError` stands for boost's `system_error` and `Exception` for the driver's own `OrientPP::Exception`. Each one carries the exact message text the driver builds. `what()` of an `Exception` is its text as a C string. Where the driver builds a new message from `string(e.what())`, as connect's catch does, the model keeps only the text before the first NUL (`Text.CStr`).

Modules, in dependency order:

- **`Wrappers`**: results and errors.
- **`Bytes`**: big-endian and two's-complement integers, and the bytes of a `std::string`.
- **`Text`**: `itoa`, `atoi`, `strcspn`, `strncasecmp` and C strings.
- **`Frame`**: the outbound encoder.
- **`Response`**: the reader.
- **`Properties`**: `property_t` and `rid_t`.
- **`Grammar`**: `add_property`.
- **`Records`**: `orient_record_t` and `parse()`.
- **`Retry`**: the retry policy as a bounded loop.
- **`Connection`**: connect, close and open.
- **`Executor`**: `parse_record`, the collection and `execute`.

Three behaviours of the code worth knowing:

- `append(string)` copies its argument without calling `safe_quote`. `safe_quote` is therefore modelled as the helper it is, and is used only where the grammar's quoted-string branch is shown to undo it.
- The map branch `{...}` keeps the text up to the first `}`, not up to a matching one. Nested maps are not balanced.
- `execute` as compiled is `execute_debug`, because `ORIENTPP_DEBUG` is defined in orient.h. Its `execute(x)` macro passes no query text, so the text comes from the stream or from the previous query. The model takes the text as an `Option<string>` and covers both calls.

## Model

| member | source | states |
|---|---|---|
| Bytes.BigEndian | orient.h:209-216 | the n-byte network-order encoding of a value has exactly n bytes |
| Bytes.ValueOfBigEndian | orient.h:270-287 | reading a big-endian field gives back the value that was written (decode after encode) |
| Bytes.BigEndianOfValue | orient.h:270-287 | re-encoding the value of any byte string gives the same bytes (encode after decode) |
| Bytes.Unsigned | orient.h:209-212 | the C cast of a signed value to its unsigned pattern stays in range and is below half the range exactly for non-negative values |
| Bytes.SignedOfUnsigned | orient.h:269-283 | reading a two's-complement pattern back as signed gives the original value |
| Bytes.UnsignedOfSigned | orient.h:269-283 | the cast round trip in the other direction: pattern, signed value, and the same pattern |
| Bytes.Octets | orient.h:193-196 | the bytes of a std::string are one per character, each the character code modulo 256 |
| Bytes.Chars | orient.h:302 | the string built from read bytes has one 8-bit character per byte |
| Bytes.CharsOfOctets | orient.h:302 | an 8-bit string survives being written as bytes and read back |
| Bytes.OctetsOfChars | orient.h:313 | bytes survive being held in a string and written again |
| Bytes.OctetsAppend | orient.h:203 | appending strings appends their bytes |
| Text.NatText | db.h:28-32 | the decimal text of a number is non-empty and made only of digits |
| Text.AtoiOfItoa | orient.h:504-506 | atoi reads back every integer that itoa printed, negative ones included |
| Text.ItoaInjective | db.h:28-32 | distinct integers print differently, so every message naming a number names it unambiguously |
| Text.ItoaChars | db.h:28-32 | printed integers hold only digits and a minus sign |
| Text.SpanToColon | orient.cpp:19 | strcspn stops at the first ':' or NUL and at no earlier character |
| Text.CStr | orient.cpp:303 | a C string is the text up to its first NUL |
| Text.CStrOfPlain | db.h:25 | a text without a NUL is its own C string |
| Text.CStrCut | db.h:25 | the C string of a text stops right before its first NUL |
| Frame.AppendS32 | orient.h:209-212 | append(s32) extends the buffer by four bytes whose signed big-endian value is v; earlier bytes are unchanged |
| Frame.AppendU16 | orient.h:213-216 | append(u16) extends the buffer by two big-endian bytes holding v; earlier bytes are unchanged |
| Frame.AppendU8 | orient.h:217-219 | append(u8) extends the buffer by exactly the byte; earlier bytes are unchanged |
| Frame.AppendLength | orient.h:229-235 | a u32 length appended through the s32 cast is written as its own 4-byte big-endian value |
| Frame.AppendBlob | orient.h:199-208 | a non-empty blob is its 4-byte length then exactly its bytes; an empty one is FF FF FF FF alone; earlier bytes are unchanged |
| Frame.AppendString | orient.h:227-237 | a string field has the same layout as a blob over the string's bytes |
| Frame.AppendField | orient.h:227-237 | appending a string to any buffer adds the same bytes as writing the field alone |
| Frame.SafeQuote | orient.h:220-226 | safe_quote never shortens its input |
| Frame.SafeQuotePlain | orient.h:220-226 | text without quotes or backslashes is left as it is |
| Frame.RequestFields | orient.h:350-354 | a request frame is the command byte, the 4-byte session id, then the body; an empty body adds nothing |
| Frame.Send | orient.h:348-357 | the frame carries the explicitly given session's id when there is one and the server session's id otherwise, and the response is bound to that session |
| Response.Take | orient.h:143-158 | a read takes exactly n bytes or fails with end of file |
| Response.CheckResult | orient.h:256-267 | the header is read only while res < 0; it consumes 5 bytes; a mismatched session id fails only when the session is connected; a non-zero result fails |
| Response.ParseU8 | orient.h:290-293 | after the header, one byte is read and consumed |
| Response.ParseU16 | orient.h:284-288 | after the header, two big-endian bytes are read |
| Response.ParseU32 | orient.h:277-281 | after the header, four big-endian bytes are read |
| Response.ParseU64 | orient.h:270-274 | after the header, eight big-endian bytes are read |
| Response.ParseS16 | orient.h:283 | the signed reader is the unsigned pattern read as two's complement |
| Response.ParseS32 | orient.h:276 | the signed reader is the unsigned pattern read as two's complement |
| Response.ParseS64 | orient.h:269 | the signed reader is the unsigned pattern read as two's complement |
| Response.ParseString | orient.h:295-304 | a zero or ORIENT_NULL length leaves the destination unchanged; any other length consumes exactly that many bytes and returns them, or fails at end of stream |
| Response.ParseBytes | orient.h:306-315 | the blob reader follows the same empty-length rule and consumes exactly len bytes otherwise |
| Response.ParseError | orient.h:316-332 | the exception-chain reader always consumes input |
| Response.FieldLayout | orient.h:199-208 | a non-empty blob field is its length followed by its bytes |
| Response.BodyRead | orient.h:295-315 | a non-empty length-prefixed field reads back as its body, both as blob and as string |
| Response.NullRead | orient.h:295-315 | a null-length field leaves either destination in place and consumes four bytes |
| Response.StringFieldRoundTrip | orient.h:295-304 | every string the encoder writes is read back as itself |
| Response.BlobFieldRoundTrip | orient.h:306-315 | every blob the encoder writes is read back as itself |
| Response.ReadsAfterHeader | orient.h:256-258 | once check_result succeeded, every typed reader behaves as on the reader it returned (the header is not read again) |
| Response.FixedRead | orient.h:143-158 | a fixed-width big-endian field is taken off the front of the input |
| Response.U8Read | orient.h:290-293 | a byte reads back as itself |
| Response.U16Read | orient.h:284-288 | a u16 reads back as itself |
| Response.S16Read | orient.h:283-288 | a signed 16-bit value reads back as itself |
| Response.S32Read | orient.h:276-281 | an s32 written by append(s32) reads back as itself |
| Response.S64Read | orient.h:269-274 | a signed 64-bit value reads back as itself |
| Response.HeaderAccepted | orient.h:256-267 | a zero result for the reader's own session, or any session while disconnected, is consumed and nothing else |
| Response.HeaderFields | orient.h:259-262 | the result byte is first and the session id is the next four bytes |
| Response.ParseErrorStep | orient.h:318-330 | one entry of the chain appends "class: message", after a ',' when text was already collected |
| Response.ErrorChainRoundTrip | orient.h:316-332 | a whole chain is read up to its zero marker into the comma-joined descriptions |
| Response.ServerErrorRaised | orient.h:265-266 | a non-zero result raises "orientsrv::Error: " followed by the joined chain |
| Response.SingleServerError | orient.h:265-266 | a one-entry chain raises "orientsrv::Error: class: message" |
| Properties.Code | orient.h:429-449 | type tags take codes 0 to 18, with 0 only for UNKNOWN |
| Properties.CodeInjective | orient.h:429-449 | distinct type tags have distinct codes |
| Properties.TypeNameInjective | orient.h:455-495 | type2str gives every tag its own name |
| Properties.NewProperty | orient.h:499 | a new property is named, of unknown type, with no data |
| Properties.AsInt | orient.h:504-508 | operator int succeeds exactly for INT properties and otherwise fails with "property_t::int(): Invalid type [code] !" |
| Properties.AsIntOfDigits | orient.h:504-506 | an INT property holding the decimal text of n converts to n |
| Properties.RidTextIsHashStr | orient.h:520-533 | a valid id renders as "#" + "id:pos"; an invalid one renders as "" in both forms |
| Properties.RidStrInjective | orient.h:520-526 | the "id:pos" form of a valid id determines the id |
| Properties.RidStrSplits | orient.h:520-526 | splitting "id:pos" at its first ':' gives back the two printed numbers |
| Grammar.Slice | orient.h:598 | string(c_str() + pos, w) has exactly w characters, NUL past the end |
| Grammar.SliceInside | orient.h:598 | inside the content, the slice is the substring |
| Grammar.SkipComma | orient.h:701-702 | the comma after a value, and only a comma, is consumed |
| Grammar.Quoted | orient.h:575-580 | the quoted-string loop stays within the content |
| Grammar.QuotedStops | orient.h:575-580 | the loop stops on a quote unless it reached the last character |
| Grammar.LinkBody | orient.h:586-591 | the link loop moves forward and stays within the content |
| Grammar.LinkBodyAccepts | orient.h:586-591 | a successful link read has passed only digits and ':' and stopped at a terminator or the end, with exactly those characters as its data; a failure is "add_property(): Invalid link data: " and the code of a character of the content |
| Grammar.MapBody | orient.h:619-629 | the map loop always advances, and reaches the end unless it closed |
| Grammar.MapBodyCloses | orient.h:619-629 | a map is closed exactly when the loop stopped just after a '}' it read |
| Grammar.PlainBody | orient.h:638-699 | the bare-value loop fails only with "add_property(): Invalid digit !", and a suffix letter is consumed |
| Grammar.NumeralEnd | orient.h:694-697 | the run of digits and '.' from a position ends at the first other character or at the end of the content |
| Grammar.PlainOutcome | orient.h:638-699 | the whole bare-value loop: the run of digits and '.' is collected; at ')', ']', ',' or the end it is an INT; a suffix letter b s i l f d t a types it BYTE, SHORT, INT, LONG, FLOAT, DOUBLE, DATETIME or DATE and is consumed; any other character fails with "add_property(): Invalid digit !" |
| Grammar.NumeralRun | orient.h:694-697 | digits and '.' are collected into the data as they stand |
| Grammar.PlainSuffixRoundTrip | orient.h:652-693 | digits followed by a suffix letter read as the type the letter names, with the letter consumed and kept out of the data |
| Grammar.PlainInvalid | orient.h:694-696 | digits followed by a character that is no digit, '.', suffix letter or ')' ']' ',' fail with "add_property(): Invalid digit !" |
| Grammar.MinusRefused | orient.h:638-696 | a value starting with '-' is rejected as an invalid digit, so negative numbers cannot be read |
| Grammar.Scalar | orient.h:572-699 | every branch but the array keeps the name and moves forward, and a leading ( * ) ] , fails with "Unimplemented type" |
| Grammar.AddProperty | orient.h:569-704 | a parsed value keeps the name it was given and moves forward; a leading ( * ) ] , fails with "Unimplemented type" |
| Grammar.Elements | orient.h:605-610 | the array loop moves forward |
| Grammar.ElementsUnnamed | orient.h:605-610 | array elements are appended after those already read, and every one is unnamed |
| Grammar.QuotedRoundTrip | orient.h:575-580 | safe_quote followed by the quoted-string branch gives back the original text |
| Grammar.QuotedStep | orient.h:575-579 | one pass of the loop reads one written character, escaped or not |
| Grammar.LinkBodyRoundTrip | orient.h:586-591 | link text of digits and ':' is read whole, up to what follows it |
| Grammar.PlainDigitsRoundTrip | orient.h:694-697 | decimal digits are read as an INT value up to what follows them |
| Grammar.RenderLead | orient.h:572 | the first character of a written value selects the branch that reads it back |
| Grammar.QuotedBranch | orient.h:573-582 | at '"' the value is a STRING ending one past the closing quote |
| Grammar.LinkBranch | orient.h:583-593 | at '#' the value is a LINK holding the link loop's text |
| Grammar.FlagBranch | orient.h:594-600 | at 't' or 'f' the value is a BOOL of four or five characters |
| Grammar.PlainBranch | orient.h:638-699 | at a digit the value has the bare-value loop's type and text |
| Grammar.TextRoundTrip | orient.h:573-582 | a written string value reads back as a STRING of that text |
| Grammar.LinkRoundTrip | orient.h:583-593 | a written link reads back as a LINK of "cluster:position" |
| Grammar.FlagRoundTrip | orient.h:594-600 | a written true or false reads back as a BOOL |
| Grammar.NumberRoundTrip | orient.h:638-699 | a written number reads back as its digits, typed by its suffix letter, or INT without one |
| Grammar.NumberPlain | orient.h:638-699 | the bare-value loop over digits and an optional suffix letter ends right after them with the letter's type |
| Grammar.RenderRoundTrip | orient.h:569-704 | every written value reads back as its meaning under the given name, and the comma after it is consumed |
| Grammar.ListRoundTrip | orient.h:601-615 | a written array reads back as a COLLECTION whose data is the raw inner text and whose elements are the items' meanings |
| Grammar.CollectionOf | orient.h:601-615 | a '[' whose elements end right before a ']' yields a COLLECTION of them, with the ']' consumed |
| Grammar.CollectionBranch | orient.h:601-615 | at '[' the value is a COLLECTION of what the array loop read |
| Grammar.ElementsStep | orient.h:605-610 | one element is read and appended, unnamed |
| Grammar.ElementsEnd | orient.h:605-606 | the array loop stops at ']' |
| Grammar.ElementValue | orient.h:605-610 | a written value inside an array is read as an unnamed element |
| Grammar.LastElement | orient.h:605-610 | the last value of an array is read up to the ']' |
| Grammar.ItemsRoundTrip | orient.h:605-610 | all the values of a written array are read back, in order, unnamed |
| Grammar.OneItem | orient.h:605-610 | a one-value array reads back as that value |
| Grammar.MoreItems | orient.h:605-610 | the first value and its comma are read, then the rest of the array |
| Records.SerializedRecord | orient.h:546-547 | a serialized result is a SERIALIZED record holding the text, with no valid id, unparsed |
| Records.RidRecord | orient.h:548-549 | an id record has type RECORD_ID and a valid id, unparsed |
| Records.FullRecord | orient.h:550-555 | a full record keeps type, id, version and content, unparsed, with no class or properties |
| Records.Insert | orient.h:725 | std::map::insert adds a new name and keeps the existing value of a name already present |
| Records.Step | orient.h:712-729 | one loop pass never moves back, keeps stored properties and a settled class, and changes nothing exactly at ")],*" |
| Records.Loop | orient.h:712-731 | the parse loop, ending also when a pass makes no progress, keeps what was stored and ends on the loop test or at a terminator |
| Records.AsWrittenAgrees | orient.h:712-731 | wherever the loop as written ends, the corrected loop ends with the same outcome |
| Records.AsWrittenEnds | orient.h:712-731 | where the corrected loop ends other than at ")],*", the loop as written ends there too, within one pass per character |
| Records.AsWrittenSpins | orient.h:727-731 | from a terminator that passes the loop test, the loop as written never ends |
| Records.ClosingParenSpins | orient.h:730-731 | on "a:1)" the loop as written never ends, while the corrected loop stores a = 1 and stops |
| Records.Parse | orient.h:705-733 | parse() leaves parsed and non-document records alone; otherwise it fills in class and properties, keeps what was stored before an error, and marks the record parsed exactly when no value failed |
| Records.ParseOnce | orient.h:705-707 | a second parse after a successful one changes nothing |
| Records.HasProperty | orient.h:557-561 | has_property parses first and answers whether the name is stored |
| Records.GetProperty | orient.h:562-568 | get_property parses first and returns the stored property, or fails with "No such property: " and the name |
| Records.GetAgreesWithHas | orient.h:557-568 | get_property succeeds exactly when has_property answers true |
| Records.ClassOf | orient.h:734-737 | classof parses first and returns the class |
| Records.RecordTextCases | orient.h:739-752 | a serialized or document record prints as its content, an id record as rid_t's "#id:pos" form whatever its valid flag, and the null record and every other kind as "null" |
| Records.CollectStep | orient.h:727-729 | a pass over a name character collects it |
| Records.NameSteps | orient.h:727-729 | the passes over a written name collect it and nothing else |
| Records.ColonStep | orient.h:720-726 | at ':' the value is read under the collected name and stored |
| Records.ValuePass | orient.h:720-726 | the ':' pass stores the written value under the collected name, and the loop test decides what follows |
| Records.EntriesLoop | orient.h:712-731 | a run of written entries ending the content is stored in order, with no error |
| Records.ClassPass | orient.h:714-718 | '@' before anything is stored takes the collected name as the class |
| Records.ClassLoop | orient.h:714-718 | a document with a class yields that class and then its entries |
| Records.DocumentRoundTrip | orient.h:705-733 | parsing a written document yields its class and each entry's meaning under its name, and marks it parsed |
| Retry.Raised | orient.cpp:184 | a transport error is raised as an Exception naming the operation and the error text; an Exception passes through unchanged |
| Retry.Decide | orient.cpp:177-185 | the catch runs again exactly on end of file or broken pipe before any reconnect, and raises otherwise |
| Retry.NoSystemErrorEscapes | orient.cpp:177-185 | whatever a retried operation raises is an Exception |
| Retry.FirstSuccessStands | orient.cpp:177-185 | a successful first run is the result, whatever the second run would do |
| Retry.RunWithRetry | orient.cpp:103-185 | the body runs once, or twice exactly when the first run lost the connection, and ends as the reference policy says |
| Connection.SplitUrl | orient.cpp:19-26 | with a ':' the host is the text before it and the port is non-empty; without one the host is the whole URL and the port is kept |
| Connection.SplitUrlRoundTrip | orient.cpp:19-26 | "host:port" splits back into host and port, and an empty port becomes 2424 |
| Connection.SplitUrlNoColon | orient.cpp:25-26 | a URL without ':' is all host and leaves the port as it was |
| Connection.GreetingLayout | orient.cpp:120-123 | the handshake head is driver name, driver version, u16 0x000c, then the client id |
| Connection.ClientIdFits | orient.cpp:123 | the client id prints as a non-empty text of at most 11 characters |
| Connection.ConnectBodyLayout | orient.cpp:38-43 | the CONNECT body is name, version, 0x000c, client id, user, password, in order |
| Connection.OpenBodyLayout | orient.cpp:120-127 | the DB_OPEN body is name, version, 0x000c, client id, database, "document" or "graph", user, password, in order |
| Connection.Closed | orient.cpp:15-16 | connecting closes a connected server first, leaving session id -1 |
| Connection.Failed | orient.cpp:55-57 | every connect failure is raised as an Exception: "orientsrv::connect(): " followed by the error's what() text up to, and not including, its first NUL |
| Connection.FailedWhole | orient.cpp:55-57 | an error text without a NUL is raised whole after the connect prefix |
| Connection.IdRefused | orient.h:256-281 | when the reply header fails, the session id is not read and the header's error is what connect sees |
| Connection.ConnectLogin | orient.cpp:33-57 | with a version and both credentials, a login whose session id cannot be read fails connect with that error's C-string text after the prefix |
| Connection.ConnectServerError | orient.cpp:33-57 | a server refusing the login has "orientsrv::connect(): " plus the C string of "orientsrv::Error: class: message" raised |
| Connection.ServerErrorCut | orient.h:266 | a server error whose class name holds a NUL reads, as a C string, only "orientsrv::Error: " and the name up to that NUL |
| Connection.ConnectNulCut | orient.cpp:56 | a refusal whose exception class is "a", NUL, "b" raises exactly "orientsrv::connect(): orientsrv::Error: a" |
| Connection.Login | orient.cpp:33-45 | the CONNECT exchange sends one frame, keeps the credentials, and connects exactly when the session id was read |
| Connection.Connect | orient.cpp:12-61 | connect splits the URL, sends CONNECT only with both user and password, and is connected exactly when it did not fail |
| Connection.ConnectHandshake | orient.cpp:29-53 | a server answering with a clean header and an id hands that id to the connection, and the only frame sent is CONNECT with the body above |
| Connection.CloseDb | orient.cpp:83-95 | close does nothing when not connected; otherwise it sends DB_CLOSE with an empty body and resets the session to id -1, not connected |
| Connection.CloseTwice | orient.cpp:83-95 | a second close sends nothing |
| Connection.ReadEntry | orient.cpp:142-152 | one cluster entry is read after the header |
| Connection.ClusterLoop | orient.cpp:141-158 | the loop counts at most the reported number of clusters |
| Connection.EntryRead | orient.cpp:142-152 | an entry with a non-empty name and an id not above the count is read whole |
| Connection.TableEntries | orient.cpp:141-158 | every entry of a table of accepted entries is read and counted in turn |
| Connection.LoopStep | orient.cpp:141-158 | an entry read whole moves the loop to the next entry with one more counted |
| Connection.TableRead | orient.cpp:141-158 | the loop runs through a table of accepted entries, counting each |
| Connection.FullTable | orient.cpp:141-158 | a full table of n accepted entries reads n clusters and stops right after them |
| Connection.LoopDone | orient.cpp:141 | with as many entries read as reported, the loop stops |
| Connection.TableEnd | orient.cpp:144-146 | an empty cluster name is read as the end of the table |
| Connection.LoopEnds | orient.cpp:144-146 | the end of the table stops the loop with the count so far |
| Connection.ShortTable | orient.cpp:141-158 | a table cut short by an empty name reads the entries before it |
| Connection.TooBigCluster | orient.cpp:148-150 | a cluster id above the reported count fails with "Too big cluster number !" |
| Connection.OpenAttempt | orient.cpp:114-165 | a run of open sends DB_OPEN with the open body under the database's session, advances the client-id counter, records what it was given, and on success is open under it |
| Connection.ClustersRead | orient.cpp:138-165 | a full table is followed by the configuration blob, which is read |
| Connection.ShortClusters | orient.cpp:159-165 | a table cut short leaves the configuration unread and keeps the count |
| Connection.OpenHandshake | orient.cpp:128-165 | a server accepting DB_OPEN connects the database under the new session id with every cluster counted |
| Connection.Reconnect | orient.h:402-407 | reconnect drops the database's session and connects the server again, failing only with an Exception |
| Connection.Prelude | orient.cpp:99-102 | open reconnects a disconnected server and closes an open database first |
| Connection.Settle | orient.cpp:177-185 | open's catch keeps a successful first run; it otherwise raises an Exception or returns the second run |
| Connection.OpenRuns | orient.cpp:103-185 | open's try and catch together either raise an Exception or leave the database open under what open was given |
| Connection.OpenDb | orient.cpp:97-186 | orientdb::open either raises an Exception or leaves the database open under the given name, kind and credentials |
| Connection.SettleRetried | orient.cpp:177-185 | open's catch gives the outcome of the reference retry policy |
| Connection.SettleSends | orient.cpp:177-185 | open sends the first run's frames, and only after a lost connection the reconnect's and the second run's |
| Executor.QueryText | orient.cpp:301-307 | a prepared query keeps its text; otherwise the text passed in wins, then the streamed text, then the previous text, and the stream is emptied |
| Executor.QueryTextAgain | orient.cpp:301-307 | the second run after a lost connection picks the same text |
| Executor.CommandClass | orient.cpp:320-332 | SQL is "q" exactly when it starts with "select" in any case and "c" otherwise; JavaScript and Gremlin have their classes; every other kind fails with "Unsupported script language !" |
| Executor.ClassNamesKind | orient.cpp:320-332 | the class tells the query kind apart |
| Executor.ClassIgnoresCase | orient.cpp:323 | the class does not depend on letter case |
| Executor.CommandLayout | orient.cpp:344-362 | the command is class, then "javascript" for JavaScript, then the text, then s32 -1, then s32 0 |
| Executor.S32Tail | orient.h:209-212 | append(s32) adds the same four bytes to any buffer |
| Executor.CommandBodyLayout | orient.cpp:313-363 | the COMMAND body is 's', then the command's 4-byte length and bytes; the command is never empty |
| Executor.ParseRecord | orient.cpp:243-276 | parse_record consumes input and keeps the session |
| Executor.ParseFull | orient.cpp:262-271 | a full record consumes its fields |
| Executor.RecordRoundTrip | orient.cpp:243-276 | a null (-2), id (-3) or full (0) record as a server writes it is read back as the record it stands for, and reading stops right after it |
| Executor.UnknownHeaderRefused | orient.cpp:272-273 | any other header fails with "parse_record(): unknown record_header [h]" |
| Executor.CollectLoop | orient.cpp:284-285 | the records already in the result stay; at most n are added, exactly n when no read failed |
| Executor.Collection | orient.cpp:278-287 | a collection only adds to the result |
| Executor.CollectStep | orient.cpp:284-285 | a record read is added and the loop moves on to the next one |
| Executor.CollectEntries | orient.cpp:284-285 | every record written is read and added, one per turn |
| Executor.PushOne | orient.cpp:284-285 | record k is read and appended after the first k |
| Executor.CollectPrefix | orient.cpp:284-285 | records at the front of the stream are added in order and the loop carries on after them |
| Executor.CollectRoundTrip | orient.cpp:278-287 | a collection of exactly the announced records reads back as those records, in order |
| Executor.CutCollection | orient.cpp:284-285 | when fewer records follow than announced, those that came stay added and reading fails at end of file |
| Executor.ReadPayload | orient.cpp:367-394 | the payload dispatch only adds to the result |
| Executor.PayloadRoundTrip | orient.cpp:367-394 | a collection, a single record, no records or a serialized result reads back as the records it stands for |
| Executor.ListedRoundTrip | orient.cpp:370-372 | an 'l' payload reads back as its records |
| Executor.SingleFrom | orient.cpp:373-375 | an 'r' payload adds the one record read |
| Executor.SerializedFrom | orient.cpp:379-391 | status 1, 2 or 'a' adds one serialized record made from the string read |
| Executor.ListedFrom | orient.cpp:370-372 | an 'l' payload is the collection loop over the announced count |
| Executor.UnsupportedStatus | orient.cpp:392-393 | any other status fails with "Unsupported query result [s]" and adds nothing |
| Executor.ReplyRoundTrip | orient.cpp:364-394 | a reply with an accepted header reads back as its payload's records |
| Executor.SameStatus | orient.cpp:367-369 | the dispatch depends on the reader only through its status read |
| Executor.LoopShift | orient.cpp:284-285 | the collection loop appends what it reads after whatever the result already held |
| Executor.PayloadShift | orient.cpp:367-394 | the payload dispatch appends after whatever the result already held |
| Executor.InsertId | orient.cpp:395-398 | for create or insert, insert_id is the first record retagged RECORD_ID with the same id, version and content; other queries leave it alone |
| Executor.ExecuteAttempt | orient.cpp:300-398 | an empty text returns at once; an unsupported kind fails before sending; otherwise COMMAND is sent under the database's session with the body above, and the result only grows |
| Executor.Reopen | orient.h:409-413 | reopen either raises an Exception or leaves the database open again under what it was opened with |
| Executor.SettleExec | orient.cpp:402-410 | execute's catch keeps a successful first run; it otherwise raises an Exception or returns the second run |
| Executor.ExecuteAsWritten | orient.cpp:290-412 | execute as written raises only Exceptions |
| Executor.Execute | orient.cpp:290-412 | execute with a fresh result per run raises only Exceptions |
| Executor.EmptyQuery | orient.cpp:308-309 | an empty query returns an empty result without sending anything |
| Executor.UnsupportedLanguage | orient.cpp:331-332 | an unsupported kind raises before sending, and is not retried |
| Executor.AttemptReads | orient.cpp:364-394 | a run that sends has the dispatch's records and succeeds exactly when the dispatch did |
| Executor.SettleExecRetried | orient.cpp:402-410 | execute's catch gives the outcome of the reference retry policy |
| Executor.ExecuteReturnsReply | orient.cpp:294-398 | a clean reply to the one COMMAND sent is execute's result: no error, exactly the payload's records, and insert_id taken from them |
| Executor.FirstRunStands | orient.cpp:399-402 | a first run that raises nothing is execute's result, and the catch is not entered |
| Executor.InsertIdOfSingle | orient.cpp:378-398 | an 'r' reply to a create or insert sets insert_id to that record, retagged RECORD_ID with its id and content |
| Executor.CutReplyRead | orient.cpp:370-372 | a collection announcing two records that breaks off after one null record adds it, then fails at end of file |
| Executor.AttemptShift | orient.cpp:298-299 | a run adds its records after those the result started with, and ends the same way |
| Executor.RetryKeepsPartialRecords | orient.cpp:298-299 | as written, after a lost connection and a good reopen, the first run's records stay in front of the second run's |
| Executor.StaleNullRecord | orient.cpp:298-299 | the counterexample: as written, execute returns the stale null record ahead of the second run's records |
| Executor.RetryReturnsSecondRun | orient.cpp:402-411 | with a fresh result per run, execute after the same lost connection returns exactly the second reply's records |

## Left out

- tcp_client (orient.h:110-191) is left out because it is socket I/O with a deadline watchdog. The model uses the reply bytes as a `seq<byte>` and treats a short stream as end of file. The leftover bytes that `~orientrsp` flushes are ignored. In the model, connecting and sending never fail. The driver's refused connection, broken pipe on write and deadline abort (orient.h:124-176) are not produced by the concrete runs. The retry policy for every transport error is stated over arbitrary outcomes by Connection.SettleRetried, Executor.SettleExecRetried and Retry.RunWithRetry.
- Mutexes (`m_lock`, `c_lock`, the counter's lock) are left out because they concern concurrency. The client-id counter is the `count` field of the server value.
- Logging (`app_log`, verbosity, hex dumps), log.h and log.cpp are left out because they only produce console and file output. The debug logging block of execute (orient.cpp:333-343) is left out for the same reason.
- json.h is left out because it wraps a JSON library that is not part of this model. test.cpp is left out because it is an example program that needs a live server.
- `orientdb::size`, `count`, `orientsrv::dbexists`, `dropdb`, `createdb` and `shutdown` are left out. They are one-request calls built from the same frame and reader pieces, and they are outside the core.
- Floats, doubles and dates are left out. The bare-value branch records only the type tag and the raw text.
- The map branch `{...}` is captured as raw text only, as the driver does.
- The parser reading at or beyond the end of the content is modelled by `Grammar.At`, which reads NUL there. This mirrors the string's terminator. The round-trip lemmas are stated for well-formed text only. `Records.Prev` likewise reads NUL before position 0. The driver reads `content[-1]` there, which happens when a first pass made no progress, on content starting with `,`, `)`, `]` or `*`.
- Prepared statements are left out. The driver has no prepared-statement code beyond the `prepared` flag, which the query value carries.
- `operator<<` streaming into `buf` is represented only by the `buf` text that `QueryText` reads.
- Executor.ExecuteAttempt: a create or insert that returns no records keeps the previous insert_id. The driver reads `records[0]` of an empty vector there, which is undefined behaviour.
- Executor.CommandClass: AS_ECMASCRIPT, AS_GROOVY and AS_GREMLIN_GROOVY fall into the unsupported-language error, as in the driver. No other query kinds exist.
- Properties.AsInt: atoi overflow is not modelled. Texts beyond the int range are converted as unbounded integers.
- Grammar.RenderRoundTrip: the round trip is stated for strings, links, booleans, non-negative integers with or without a type letter, and arrays of them. Maps are not covered, because the map branch keeps their text raw. Numbers with a '.' are not covered, because the model does not decode floating point; Grammar.PlainOutcome still states how the loop reads them. Negative numbers cannot be covered, because the driver rejects a leading '-' (Grammar.MinusRefused).
- Records.DocumentRoundTrip: stated for documents with at least one entry whose class and property names contain none of `:`, `@`, `)`, `]`, `,` and `*`. The loop collects such names whole.
- Records.Parse: it runs the corrected loop `Records.Loop`, which also stops when a pass makes no progress. Wherever the driver's loop ends, the two agree (Records.AsWrittenAgrees). On contents such as `a:1)`, `a:"x")`, `a:[1])` or `a:1,,`, the driver's `parse()` never returns (Records.AsWrittenSpins, and the Findings table), while Parse returns the properties read so far. The same holds for Records.HasProperty, Records.GetProperty and Records.ClassOf, which parse first.
- Response.ParseError: its own contract states only progress. Its result is stated by Response.ErrorChainRoundTrip for chains a server can write.

## Findings

| source | as written | input that shows it | evidently intended | confidence | as-written member | corrected member |
|---|---|---|---|---|---|---|
| orient.h:727-731 | the parse loop tests `content[curr_pos - 1]`, but a pass at `)`, `]`, `,` or `*` consumes nothing, so the character before never becomes the `)` | a document record with content `a:1)`: after `a` is stored the loop stays at the `)` forever | the loop ends at the closing `)` with `a = 1` stored | medium, not executed | Records.ClosingParenSpins | Records.Loop |
| orient.cpp:298-299 | the result vector is created before the `restart:` label, so the second run appends to what the first run had added before the connection dropped | a first reply that announces two records, sends one null record and ends; then a good reopen and a good second reply | execute returns only the records of the run that succeeded | medium, not executed | Executor.StaleNullRecord | Executor.RetryReturnsSecondRun |
