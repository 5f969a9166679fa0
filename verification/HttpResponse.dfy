/** Response headers and the persistent-connection decision: src/pthr_http.c, after sections 4.4 and 8.1 of
    RFC 2616. */
module HttpResponses {
  import opened Common
  import opened IoStreams
  import opened IoHandles
  import opened HttpChunks
  import opened HeaderBits
  import opened HttpLengths

  datatype Header = Header(key: Text, value: Text)

  function Ascii(s: string): Text {
    seq(|s|, i requires 0 <= i < |s| => s[i] as int % 256)
  }

  function Name(k: Kind): Text {
    match k
    case Server => Ascii("Server")
    case Date => Ascii("Date")
    case ContentType => Ascii("Content-Type")
    case Connection => Ascii("Connection")
    case ContentLength => Ascii("Content-Length")
    case Chunked => Ascii("Transfer-Encoding")
  }

  function LowerByte(b: Byte): Byte {
    if 65 <= b <= 90 then b + 32 else b
  }

  /** strcasecmp (a, b) == 0 */
  predicate SameText(a: Text, b: Text) {
    |a| == |b| && forall i :: 0 <= i < |a| ==> LowerByte(a[i]) == LowerByte(b[i])
  }

  /** Is this header the one that kind stands for?  Transfer-Encoding counts only as "chunked". */
  predicate Is(k: Kind, h: Header) {
    SameText(h.key, Name(k)) && (k == Chunked ==> SameText(h.value, Ascii("chunked")))
  }

  predicate Sent(k: Kind, hs: seq<Header>) {
    exists i :: 0 <= i < |hs| && Is(k, hs[i])
  }

  /** The kinds not sent yet. */
  ghost function Unsent(hs: seq<Header>): set<Kind> {
    set k | k in ALL && !Sent(k, hs)
  }

  lemma SentSnoc(k: Kind, hs: seq<Header>, h: Header)
    ensures Sent(k, hs + [h]) <==> Sent(k, hs) || Is(k, h)
  {
    if Sent(k, hs) {
      var i :| 0 <= i < |hs| && Is(k, hs[i]);
      assert Is(k, (hs + [h])[i]);
    }
    if Is(k, h) {
      assert Is(k, (hs + [h])[|hs|]);
    }
  }

  ghost function Drop(u: set<Kind>, k: Kind, c: bool): set<Kind> {
    if c then u - {k} else u
  }

  ghost function DropSent(u: set<Kind>, h: Header): set<Kind> {
    Drop(Drop(Drop(Drop(Drop(Drop(u, Server, Is(Server, h)), Date, Is(Date, h)), ContentType, Is(ContentType, h)),
                   Connection, Is(Connection, h)), ContentLength, Is(ContentLength, h)), Chunked, Is(Chunked, h))
  }

  lemma DropSentIsUnsent(hs: seq<Header>, h: Header)
    ensures DropSent(Unsent(hs), h) == Unsent(hs + [h])
  {
    forall k: Kind
      ensures k in DropSent(Unsent(hs), h) <==> k in Unsent(hs + [h])
    {
      SentSnoc(k, hs, h);
    }
  }

  /** The tests at the end of http_response_send_header. */
  method ClearSent(bits: bv32, h: Header, ghost u: set<Kind>) returns (r: bv32)
    requires Flags(bits, u)
    ensures Flags(r, DropSent(u, h))
  {
    ghost var v := u;
    var c := Is(Server, h);
    r := ClearIf(bits, Server, c, v);
    v, c := Drop(v, Server, c), Is(Date, h);
    r := ClearIf(r, Date, c, v);
    v, c := Drop(v, Date, c), Is(ContentType, h);
    r := ClearIf(r, ContentType, c, v);
    v, c := Drop(v, ContentType, c), Is(Connection, h);
    r := ClearIf(r, Connection, c, v);
    v, c := Drop(v, Connection, c), Is(ContentLength, h);
    r := ClearIf(r, ContentLength, c, v);
    v, c := Drop(v, ContentLength, c), Is(Chunked, h);
    r := ClearIf(r, Chunked, c, v);
  }

  // ----- what the end of the headers should do

  /** Of the request, what matters here: its version and its Connection header. */
  datatype Request = Request(http09: bool, major: int, minor: int, connection: Option<Text>)

  const CLOSE: Text := Ascii("close")
  const KEEP_ALIVE: Text := Ascii("keep-alive")
  const TEXT_PLAIN: Text := Ascii("text/plain")

  /** The client can find the end of the body without the connection being closed. */
  predicate LengthKnown(hs: seq<Header>) {
    Sent(ContentLength, hs) || Sent(Chunked, hs)
  }

  predicate ClientAgrees(req: Request) {
    match req.connection
    case Some(c) => SameText(c, KEEP_ALIVE)
    case None => req.major == 1 && req.minor >= 1
  }

  /** The connection stays open after a response with caller headers `hs`. */
  predicate Persists(req: Request, hs: seq<Header>) {
    !req.http09 && !Sent(Connection, hs) && LengthKnown(hs) && ClientAgrees(req)
  }

  function IfMissing(k: Kind, hs: seq<Header>, value: Text): seq<Header> {
    if Sent(k, hs) then [] else [Header(Name(k), value)]
  }

  /** The headers the library adds after the caller's. */
  function Added(req: Request, hs: seq<Header>, server: Text, date: Text): seq<Header> {
    AddedFirst(hs, server, date) + IfMissing(Connection, hs, if Persists(req, hs) then KEEP_ALIVE else CLOSE)
  }

  function AddedFirst(hs: seq<Header>, server: Text, date: Text): seq<Header> {
    IfMissing(Server, hs, server) + IfMissing(Date, hs, date) + IfMissing(ContentType, hs, TEXT_PLAIN)
  }

  function Count(k: Kind, hs: seq<Header>): nat {
    if hs == [] then 0 else (if Is(k, hs[0]) then 1 else 0) + Count(k, hs[1..])
  }

  predicate Supplied(k: Kind) {
    k == Server || k == Date || k == ContentType || k == Connection
  }

  lemma {:induction false} CountAppend(k: Kind, a: seq<Header>, b: seq<Header>)
    ensures Count(k, a + b) == Count(k, a) + Count(k, b)
  {
    if a == [] {
      assert a + b == b;
    } else {
      assert (a + b)[1..] == a[1..] + b;
      CountAppend(k, a[1..], b);
    }
  }

  lemma {:induction false} CountIsSent(k: Kind, hs: seq<Header>)
    ensures Count(k, hs) > 0 <==> Sent(k, hs)
  {
    if hs != [] {
      CountIsSent(k, hs[1..]);
      if Sent(k, hs) && !Is(k, hs[0]) {
        var i :| 0 <= i < |hs| && Is(k, hs[i]);
        assert Is(k, hs[1..][i - 1]);
      }
      if Sent(k, hs[1..]) {
        var i :| 0 <= i < |hs[1..]| && Is(k, hs[1..][i]);
        assert Is(k, hs[i + 1]);
      }
    }
  }

  lemma CountIfMissing(k: Kind, j: Kind, hs: seq<Header>, value: Text)
    requires Supplied(j)
    ensures Count(k, IfMissing(j, hs, value)) == if k == j && !Sent(j, hs) then 1 else 0
  {
    if !Sent(j, hs) {
      assert [Header(Name(j), value)][1..] == [];
    }
  }

  /** Server, Date, Content-Type and Connection are added once each, and only when the caller sent none; no
      length is ever added. */
  lemma AddedOnceIfMissing(req: Request, hs: seq<Header>, server: Text, date: Text, k: Kind)
    ensures Count(k, Added(req, hs, server, date)) == if Supplied(k) && !Sent(k, hs) then 1 else 0
  {
    var last := if Persists(req, hs) then KEEP_ALIVE else CLOSE;
    var a, b := IfMissing(Server, hs, server), IfMissing(Date, hs, date);
    var c, d := IfMissing(ContentType, hs, TEXT_PLAIN), IfMissing(Connection, hs, last);
    CountAppend(k, a + b + c, d);
    CountAppend(k, a + b, c);
    CountAppend(k, a, b);
    CountIfMissing(k, Server, hs, server);
    CountIfMissing(k, Date, hs, date);
    CountIfMissing(k, ContentType, hs, TEXT_PLAIN);
    CountIfMissing(k, Connection, hs, last);
  }

  /** A connection that stays open has told the client where the body ends, and its one Connection header
      says keep-alive; when the library closes it and supplies the header, that says close; and where the
      caller sent Connection headers, the library closes it and adds none. */
  lemma PersistenceIsAnnounced(req: Request, hs: seq<Header>, server: Text, date: Text)
    requires !req.http09
    ensures var all := hs + Added(req, hs, server, date);
            && (Persists(req, hs) ==>
                  && LengthKnown(hs) && Count(Connection, all) == 1
                  && all[|all| - 1] == Header(Name(Connection), KEEP_ALIVE))
            && (!Persists(req, hs) && !Sent(Connection, hs) ==>
                  && Count(Connection, all) == 1 && all[|all| - 1] == Header(Name(Connection), CLOSE))
            && (Sent(Connection, hs) ==> !Persists(req, hs) && Count(Connection, all) == Count(Connection, hs))
  {
    AddedOnceIfMissing(req, hs, server, date, Connection);
    CountAppend(Connection, hs, Added(req, hs, server, date));
    CountIsSent(Connection, hs);
  }

  predicate SaysKeepAlive(h: Header) {
    Is(Connection, h) && SameText(h.value, KEEP_ALIVE)
  }

  predicate AnnouncesKeepAlive(hs: seq<Header>) {
    exists i :: 0 <= i < |hs| && SaysKeepAlive(hs[i])
  }

  lemma AnnouncesAppend(a: seq<Header>, b: seq<Header>)
    ensures AnnouncesKeepAlive(a + b) <==> AnnouncesKeepAlive(a) || AnnouncesKeepAlive(b)
  {
    if AnnouncesKeepAlive(a) {
      var i :| 0 <= i < |a| && SaysKeepAlive(a[i]);
      assert SaysKeepAlive((a + b)[i]);
    }
    if AnnouncesKeepAlive(b) {
      var i :| 0 <= i < |b| && SaysKeepAlive(b[i]);
      assert SaysKeepAlive((a + b)[|a| + i]);
    }
    if AnnouncesKeepAlive(a + b) {
      var i :| 0 <= i < |a + b| && SaysKeepAlive((a + b)[i]);
      assert SaysKeepAlive(if i < |a| then a[i] else b[i - |a|]);
    }
  }

  lemma OnlySentAnnounces(hs: seq<Header>)
    ensures AnnouncesKeepAlive(hs) ==> Sent(Connection, hs)
  {
  }

  /** What the library adds says keep-alive only if the connection persists. */
  lemma AddedSaysClose(req: Request, hs: seq<Header>, server: Text, date: Text)
    requires !Persists(req, hs)
    ensures !AnnouncesKeepAlive(Added(req, hs, server, date))
  {
    var first, last := AddedFirst(hs, server, date), IfMissing(Connection, hs, CLOSE);
    CountFirst(hs, server, date);
    CountIsSent(Connection, first);
    OnlySentAnnounces(first);
    AnnouncesAppend(first, last);
    assert |CLOSE| == 5 && |KEEP_ALIVE| == 10;
    assert !SaysKeepAlive(Header(Name(Connection), CLOSE));
  }

  /** The response says keep-alive and the call says close exactly if the caller itself sent a Connection
      header that says keep-alive. */
  lemma MisannouncedExactlyByCaller(req: Request, hs: seq<Header>, server: Text, date: Text)
    requires !req.http09
    ensures AnnouncesKeepAlive(hs + Added(req, hs, server, date)) && !Persists(req, hs) <==> AnnouncesKeepAlive(hs)
  {
    OnlySentAnnounces(hs);
    AnnouncesAppend(hs, Added(req, hs, server, date));
    if !Persists(req, hs) {
      AddedSaysClose(req, hs, server, date);
    }
  }

  /** Such a caller: HTTP/1.1, a known length, and its own Connection: keep-alive. */
  lemma CallersKeepAliveCloses(server: Text, date: Text)
    ensures var req := Request(false, 1, 1, None);
            var hs := [Header(Name(ContentLength), [53]), Header(Name(Connection), KEEP_ALIVE)];
            && LengthKnown(hs) && ClientAgrees(req) && !Persists(req, hs)
            && AnnouncesKeepAlive(hs + Added(req, hs, server, date))
  {
    var req := Request(false, 1, 1, None);
    var hs := [Header(Name(ContentLength), [53]), Header(Name(Connection), KEEP_ALIVE)];
    assert Is(ContentLength, hs[0]);
    assert SaysKeepAlive(hs[1]);
    MisannouncedExactlyByCaller(req, hs, server, date);
  }

  // ----- the rules and the text, in the words of the wire

  /** Equal but for the case of ASCII letters. */
  lemma SameTextIsCaseless(a: Text, b: Text)
    ensures SameText(a, b) <==>
              |a| == |b| && forall i :: 0 <= i < |a| ==> a[i] == b[i] || CasePair(a[i], b[i]) || CasePair(b[i], a[i])
  {
    if |a| == |b| {
      forall i | 0 <= i < |a|
        ensures LowerByte(a[i]) == LowerByte(b[i]) <==> a[i] == b[i] || CasePair(a[i], b[i]) || CasePair(b[i], a[i])
      {
      }
    }
  }

  /** An upper-case letter and its lower-case form. */
  predicate CasePair(u: Byte, l: Byte) {
    'A' as int <= u <= 'Z' as int && l == u + ('a' as int - 'A' as int)
  }

  /** Which headers the library looks for. */
  lemma KindsByName(h: Header)
    ensures Is(Server, h) <==> SameText(h.key, Ascii("Server"))
    ensures Is(Date, h) <==> SameText(h.key, Ascii("Date"))
    ensures Is(ContentType, h) <==> SameText(h.key, Ascii("Content-Type"))
    ensures Is(Connection, h) <==> SameText(h.key, Ascii("Connection"))
    ensures Is(ContentLength, h) <==> SameText(h.key, Ascii("Content-Length"))
    ensures Is(Chunked, h) <==> SameText(h.key, Ascii("Transfer-Encoding")) && SameText(h.value, Ascii("chunked"))
  {
  }

  /** When the connection stays open, for a response without a Connection header of the caller's: only with
      a length or chunks and not for HTTP/0.9; then as the request's own Connection header says, keep-alive
      or not, at any version; and without one, exactly for HTTP/1.1 and later 1.x. */
  lemma PersistenceRules(req: Request, hs: seq<Header>)
    requires !Sent(Connection, hs)
    ensures req.http09 ==> !Persists(req, hs)
    ensures !Sent(ContentLength, hs) && !Sent(Chunked, hs) ==> !Persists(req, hs)
    ensures !req.http09 && (Sent(ContentLength, hs) || Sent(Chunked, hs)) ==>
              match req.connection
              case None => Persists(req, hs) <==> req.major == 1 && req.minor >= 1
              case Some(c) => Persists(req, hs) <==> SameText(c, Ascii("keep-alive"))
    ensures req.connection.Some? && SameText(req.connection.value, Ascii("close")) ==> !Persists(req, hs)
  {
    assert |Ascii("close")| == 5 && |Ascii("keep-alive")| == 10;
  }

  function Line(key: string, value: Text): Text {
    Ascii(key) + Ascii(": ") + value + Ascii("\r\n")
  }

  /** What a response without any headers of the caller's looks like on the wire. */
  lemma PlainResponse(req: Request, server: Text, date: Text)
    ensures HeaderLines(Added(req, [], server, date)) + CRLF ==
              Line("Server", server) + Line("Date", date) + Line("Content-Type", Ascii("text/plain")) +
              Line("Connection", Ascii("close")) + Ascii("\r\n")
  {
    var a, b := Header(Name(Server), server), Header(Name(Date), date);
    var c, d := Header(Name(ContentType), TEXT_PLAIN), Header(Name(Connection), CLOSE);
    NothingSent();
    assert Added(req, [], server, date) == [a, b, c, d];
    FourLines(a, b, c, d);
    CrlfText();
  }

  lemma CrlfText()
    ensures CRLF == Ascii("\r\n")
  {
  }

  lemma NothingSent()
    ensures forall k :: !Sent(k, [])
  {
  }

  lemma FourLines(a: Header, b: Header, c: Header, d: Header)
    ensures HeaderLines([a, b, c, d]) == HeaderLine(a) + HeaderLine(b) + HeaderLine(c) + HeaderLine(d)
  {
    assert [a, b, c, d][..3] == [a, b, c] && [a, b, c][..2] == [a, b] && [a, b][..1] == [a];
    assert HeaderLines([a]) == [] + HeaderLine(a) == HeaderLine(a);
    assert HeaderLines([a, b]) == HeaderLine(a) + HeaderLine(b);
    assert HeaderLines([a, b, c]) == HeaderLine(a) + HeaderLine(b) + HeaderLine(c);
  }

  // ----- the response

  function HeaderLine(h: Header): Text {
    h.key + Ascii(": ") + h.value + CRLF
  }

  function HeaderLines(hs: seq<Header>): Text {
    if hs == [] then [] else HeaderLines(hs[..|hs| - 1]) + HeaderLine(hs[|hs| - 1])
  }

  predicate GoodHeader(h: Header) {
    NUL !in h.key && NUL !in h.value
  }

  /** The number of the last Content-Length header that has one; 0 without any. */
  function LengthSeen(hs: seq<Header>): int {
    if hs == [] then 0 else LengthAfter(hs[|hs| - 1], LengthSeen(hs[..|hs| - 1]))
  }

  function LengthAfter(h: Header, before: int): int {
    if Is(ContentLength, h) && ScanInt(h.value).Some? then ScanInt(h.value).value else before
  }

  predicate SeenAs(hs: seq<Header>, n: int) {
    n == LengthSeen(hs)
  }

  /** `n` is what has been read from `hs`. */
  ghost predicate Remembers(n: int, hs: seq<Header>) {
    forall x {:trigger SeenAs(hs, x)} :: SeenAs(hs, x) ==> x == n
  }

  lemma RemembersIs(n: int, hs: seq<Header>)
    ensures Remembers(n, hs) <==> n == LengthSeen(hs)
  {
    assert SeenAs(hs, LengthSeen(hs));
  }

  lemma RemembersSnoc(n: int, hs: seq<Header>, h: Header)
    requires Remembers(n, hs)
    ensures Remembers(LengthAfter(h, n), hs + [h])
  {
    RemembersIs(n, hs);
    LengthSnoc(hs, h);
    RemembersIs(LengthAfter(h, n), hs + [h]);
  }

  lemma LengthSnoc(hs: seq<Header>, h: Header)
    ensures LengthSeen(hs + [h]) == LengthAfter(h, LengthSeen(hs))
  {
    assert (hs + [h])[..|hs|] == hs;
  }

  /** The last one counts. */
  lemma LastLengthCounts(hs: seq<Header>, n: nat)
    ensures LengthSeen(hs + [Header(Ascii("Content-Length"), Decimal(n))]) == n
  {
    LengthSnoc(hs, Header(Ascii("Content-Length"), Decimal(n)));
    LengthReadsBack([], n, []);
    assert [] + (Decimal(n) + []) == Decimal(n);
  }

  /** Headers of other kinds do not change it. */
  lemma {:induction false} LengthIsCallers(hs: seq<Header>, extra: seq<Header>)
    requires Count(ContentLength, extra) == 0
    ensures LengthSeen(hs + extra) == LengthSeen(hs)
    decreases |extra|
  {
    if extra == [] {
      assert hs + extra == hs;
    } else {
      var n := |extra| - 1;
      var h := extra[n];
      assert extra == extra[..n] + [h] && hs + extra == (hs + extra[..n]) + [h];
      CountAppend(ContentLength, extra[..n], [h]);
      assert [h][1..] == [];
      LengthSnoc(hs + extra[..n], h);
      LengthIsCallers(hs, extra[..n]);
    }
  }

  class HttpResponse {
    const request: Request
    const io: IoHandle
    var extraHeaders: bv32
    var contentLength: int
    ghost var sent: seq<Header>

    ghost predicate Valid()
      reads this, io, io.inbuf, io.outbuf
    {
      io.Valid() && Flags(extraHeaders, Unsent(sent)) && Remembers(contentLength, sent)
    }

    constructor (request: Request, io: IoHandle)
      requires io.Valid()
      ensures Valid() && this.request == request && this.io == io && sent == []
    {
      this.request, this.io, extraHeaders, contentLength, sent := request, io, 0xffff_ffff, 0, [];
      new;
      assert Unsent([]) == ALL;
      AllFlags();
    }

    /** http_response_send_header.  HTTP/0.9 has no headers. */
    method SendHeader(h: Header) returns (ok: bool)
      requires Valid() && GoodHeader(h)
      modifies this, io, io.outbuf
      ensures request.http09 ==> ok && Valid() && sent == old(sent) && io.Output() == old(io.Output())
      ensures ok && !request.http09 ==>
                Valid() && sent == old(sent) + [h] && io.Output() == old(io.Output()) + HeaderLine(h)
    {
      if request.http09 {
        return true;
      }
      ok := PutLine(h);
      if ok {
        DropSentIsUnsent(sent, h);
        extraHeaders := ClearSent(extraHeaders, h, Unsent(sent));
        RemembersSnoc(contentLength, sent, h);
        contentLength := ScanLength(h, contentLength);
        sent := sent + [h];
      }
    }

    /** sscanf stores a number only if it finds one. */
    method ScanLength(h: Header, before: int) returns (n: int)
      ensures n == LengthAfter(h, before)
    {
      n := before;
      if Is(ContentLength, h) {
        var scanned := ScanInt(h.value);
        if scanned.Some? {
          n := scanned.value;
        }
      }
    }

    method PutLine(h: Header) returns (ok: bool)
      requires io.Valid() && GoodHeader(h)
      modifies io, io.outbuf
      ensures ok ==> io.Valid() && io.Output() == old(io.Output()) + HeaderLine(h)
    {
      ghost var out := io.Output();
      var sep := Ascii(": ");
      assert NUL !in sep && NUL !in CRLF;
      ok := io.Fputs(h.key);
      if !ok {
        return;
      }
      ok := io.Fputs(sep);
      if !ok {
        return;
      }
      Regroup(out, h.key, sep);
      ok := io.Fputs(h.value);
      if !ok {
        return;
      }
      Regroup(out, h.key + sep, h.value);
      ok := io.Fputs(CRLF);
      Regroup(out, h.key + sep + h.value, CRLF);
    }

    /** http_response_send_headers */
    method SendHeaders(hs: seq<Header>) returns (ok: bool)
      requires Valid() && forall h :: h in hs ==> GoodHeader(h)
      modifies this, io, io.outbuf
      ensures ok ==> Valid() && sent == old(sent) + if request.http09 then [] else hs
      ensures ok && !request.http09 ==> io.Output() == old(io.Output()) + HeaderLines(hs)
      ensures ok && request.http09 ==> io.Output() == old(io.Output())
    {
      ok := true;
      if request.http09 {
        return;
      }
      ghost var was, out := sent, io.Output();
      assert was + [] == was && out + HeaderLines([]) == out;
      ok := SendAll(hs, was, out);
    }

    method SendAll(hs: seq<Header>, ghost was: seq<Header>, ghost out: Text) returns (ok: bool)
      requires Grew(was, out, []) && !request.http09 && forall h :: h in hs ==> GoodHeader(h)
      modifies this, io, io.outbuf
      ensures ok ==> Grew(was, out, hs)
    {
      ok := true;
      var i := 0;
      ghost var done: seq<Header> := [];
      while i < |hs|
        invariant 0 <= i <= |hs| && done == hs[..i] && Grew(was, out, done)
      {
        ok := SendNext(hs[i], was, out, done);
        if !ok {
          return;
        }
        done := done + [hs[i]];
        i := i + 1;
      }
      assert done == hs;
    }

    /** Since headers `hs` and output `out`, exactly the headers `extra` have been sent. */
    ghost predicate Grew(hs: seq<Header>, out: Text, extra: seq<Header>)
      reads this, io, io.inbuf, io.outbuf
    {
      Valid() && sent == hs + extra && io.Output() == out + HeaderLines(extra)
    }

    /** One more of them. */
    method SendNext(h: Header, ghost hs: seq<Header>, ghost out: Text, ghost extra: seq<Header>) returns (ok: bool)
      requires Grew(hs, out, extra) && !request.http09 && GoodHeader(h)
      modifies this, io, io.outbuf
      ensures ok ==> Grew(hs, out, extra + [h])
    {
      ok := SendHeader(h);
      LinesSnoc(hs, out, extra, h);
    }

    /** One of the library's own headers, if its bit is still set. */
    method Supply(k: Kind, value: Text, ghost hs: seq<Header>, ghost out: Text, ghost extra: seq<Header>)
      returns (ok: bool)
      requires Grew(hs, out, extra) && !request.http09 && NUL !in value
      requires Count(k, extra) == 0
      modifies this, io, io.outbuf
      ensures ok ==> Grew(hs, out, extra + IfMissing(k, hs, value))
    {
      ok := true;
      SentBefore(k, hs, extra);
      var missing := Test(extraHeaders, k, Unsent(sent));
      if missing {
        var h := Header(Name(k), value);
        NameHasNoNul(k);
        ok := SendNext(h, hs, out, extra);
      } else {
        assert extra + [] == extra;
      }
    }

    method SupplyTwo(server: Text, date: Text, ghost hs: seq<Header>, ghost out: Text) returns (ok: bool)
      requires Grew(hs, out, []) && !request.http09 && NUL !in server && NUL !in date
      modifies this, io, io.outbuf
      ensures ok ==> Grew(hs, out, IfMissing(Server, hs, server) + IfMissing(Date, hs, date))
    {
      ghost var a := IfMissing(Server, hs, server);
      CountFirst(hs, server, date);
      ok := Supply(Server, server, hs, out, []);
      if ok {
        assert [] + a == a;
        ok := Supply(Date, date, hs, out, a);
      }
    }

    method SupplyFirst(server: Text, date: Text, ghost hs: seq<Header>, ghost out: Text) returns (ok: bool)
      requires Grew(hs, out, []) && !request.http09 && NUL !in server && NUL !in date
      modifies this, io, io.outbuf
      ensures ok ==> Grew(hs, out, AddedFirst(hs, server, date))
    {
      ok := SupplyTwo(server, date, hs, out);
      if ok {
        CountFirst(hs, server, date);
        PlainHasNoNul();
        ok := Supply(ContentType, TEXT_PLAIN, hs, out, IfMissing(Server, hs, server) + IfMissing(Date, hs, date));
      }
    }

    /** The branches of http_response_end_headers for a response without a Connection header. */
    method Decide() returns (close: bool)
      requires Valid()
      ensures close == !(LengthKnown(sent) && ClientAgrees(request))
    {
      var unknown := NoLength(extraHeaders, Unsent(sent));
      if unknown {
        return true;
      }
      if request.connection.Some? {
        if SameText(request.connection.value, CLOSE) {
          return true;
        }
        return !SameText(request.connection.value, KEEP_ALIVE);
      }
      return !(request.major == 1 && request.minor >= 1);
    }

    /** What the response does about the connection, seen from all it has sent so far. */
    method ChooseConnection() returns (close: bool)
      requires Valid() && !request.http09
      ensures close == !Persists(request, sent)
    {
      close := true;
      var missing := Test(extraHeaders, Connection, Unsent(sent));
      if missing {
        close := Decide();
      }
    }

    method SupplyConnection(server: Text, date: Text, ghost hs: seq<Header>, ghost out: Text)
      returns (close: bool, ok: bool)
      requires Grew(hs, out, AddedFirst(hs, server, date)) && !request.http09
      modifies this, io, io.outbuf
      ensures ok ==> Grew(hs, out, Added(request, hs, server, date)) && close == !Persists(request, hs)
    {
      close := ChooseConnection();
      PersistsBefore(request, hs, server, date);
      CountFirst(hs, server, date);
      ConnectionHasNoNul();
      var value := if close then CLOSE else KEEP_ALIVE;
      ok := Supply(Connection, value, hs, out, AddedFirst(hs, server, date));
    }

    /** All the headers that are missing. */
    method SupplyAll(server: Text, date: Text, ghost hs: seq<Header>, ghost out: Text)
      returns (close: bool, ok: bool)
      requires Grew(hs, out, []) && !request.http09 && NUL !in server && NUL !in date
      modifies this, io, io.outbuf
      ensures ok ==> Grew(hs, out, Added(request, hs, server, date)) && close == !Persists(request, hs)
      ensures ok ==> contentLength == old(contentLength)
    {
      close := true;
      RemembersIs(contentLength, sent);
      assert hs + [] == hs;
      ok := SupplyFirst(server, date, hs, out);
      if ok {
        close, ok := SupplyConnection(server, date, hs, out);
      }
      if ok {
        AddedOnceIfMissing(request, hs, server, date, ContentLength);
        LengthIsCallers(hs, Added(request, hs, server, date));
        RemembersIs(contentLength, sent);
      }
    }

    /** http_response_end_headers.  `close` is its result. */
    method EndHeaders(server: Text, date: Text) returns (close: bool, ok: bool)
      requires Valid() && NUL !in server && NUL !in date
      modifies this, io, io.outbuf
      ensures ok ==> Valid() && close == !Persists(request, old(sent))
      ensures ok ==> contentLength == old(contentLength)
      ensures ok && request.http09 ==> sent == old(sent) && io.Output() == old(io.Output())
      ensures ok && !request.http09 ==>
                && sent == old(sent) + Added(request, old(sent), server, date)
                && io.Output() == old(io.Output()) + HeaderLines(Added(request, old(sent), server, date)) + CRLF
    {
      close, ok := true, true;
      if request.http09 {
        return;
      }
      ghost var hs, out := sent, io.Output();
      assert hs + [] == hs && out + HeaderLines([]) == out;
      close, ok := SupplyAll(server, date, hs, out);
      if !ok {
        return;
      }
      assert NUL !in CRLF;
      ok := io.Fputs(CRLF);
    }
  }

  lemma LinesSnoc(hs: seq<Header>, out: Text, extra: seq<Header>, h: Header)
    ensures hs + extra + [h] == hs + (extra + [h])
    ensures out + HeaderLines(extra) + HeaderLine(h) == out + HeaderLines(extra + [h])
  {
    assert (extra + [h])[..|extra|] == extra;
    Regroup(out, HeaderLines(extra), HeaderLine(h));
  }

  /** Headers of other kinds do not matter. */
  lemma SentBefore(k: Kind, hs: seq<Header>, extra: seq<Header>)
    requires Count(k, extra) == 0
    ensures Sent(k, hs + extra) <==> Sent(k, hs)
  {
    CountAppend(k, hs, extra);
    CountIsSent(k, hs);
    CountIsSent(k, hs + extra);
  }

  /** The headers supplied first do not change the decision. */
  lemma PersistsBefore(req: Request, hs: seq<Header>, server: Text, date: Text)
    ensures Persists(req, hs + AddedFirst(hs, server, date)) <==> Persists(req, hs)
  {
    var first := AddedFirst(hs, server, date);
    CountFirst(hs, server, date);
    SentBefore(Connection, hs, first);
    SentBefore(ContentLength, hs, first);
    SentBefore(Chunked, hs, first);
  }

  lemma PlainHasNoNul()
    ensures NUL !in TEXT_PLAIN
  {
  }

  lemma ConnectionHasNoNul()
    ensures NUL !in CLOSE && NUL !in KEEP_ALIVE
  {
  }

  lemma CountFirst(hs: seq<Header>, server: Text, date: Text)
    ensures var a, b := IfMissing(Server, hs, server), IfMissing(Date, hs, date);
            Count(Date, a) == 0 && Count(ContentType, a + b) == 0
    ensures forall k | k == Connection || k == ContentLength || k == Chunked ::
              Count(k, AddedFirst(hs, server, date)) == 0
  {
    var a, b := IfMissing(Server, hs, server), IfMissing(Date, hs, date);
    CountIfMissing(Date, Server, hs, server);
    CountAppend(ContentType, a, b);
    CountIfMissing(ContentType, Server, hs, server);
    CountIfMissing(ContentType, Date, hs, date);
    forall k | k == Connection || k == ContentLength || k == Chunked
      ensures Count(k, AddedFirst(hs, server, date)) == 0
    {
      CountAppend(k, a + b, IfMissing(ContentType, hs, TEXT_PLAIN));
      CountAppend(k, a, b);
      CountIfMissing(k, Server, hs, server);
      CountIfMissing(k, Date, hs, date);
      CountIfMissing(k, ContentType, hs, TEXT_PLAIN);
    }
  }

  lemma NameHasNoNul(k: Kind)
    ensures NUL !in Name(k)
  {
  }
}
