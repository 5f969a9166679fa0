/** Chunked transfer coding: the writer in src/pthr_http.c against a reader for section 3.6.1 of RFC 2616. */
module HttpChunks {
  import opened Common
  import opened IoStreams
  import opened HexDigits
  import opened IoHandles

  const CRLF: Text := [CR, LF]

  // ----- hexadecimal lengths

  /** printf's %X. */
  function Hex(n: nat): (s: Text)
    ensures |s| > 0 && forall i :: 0 <= i < |s| ==> HexToInt(s[i]) >= 0
  {
    if n < 16 then [UpperDigit(n)] else Hex(n / 16) + [UpperDigit(n % 16)]
  }

  /** How many hex digits `s` starts with. */
  function HexPrefix(s: Text): (k: nat)
    ensures k <= |s|
    ensures forall i :: 0 <= i < k ==> HexToInt(s[i]) >= 0
    ensures k < |s| ==> HexToInt(s[k]) < 0
  {
    if s == [] || HexToInt(s[0]) < 0 then 0 else 1 + HexPrefix(s[1..])
  }

  /** The number that a string of hex digits denotes. */
  function HexValue(s: Text): nat
    requires forall i :: 0 <= i < |s| ==> HexToInt(s[i]) >= 0
  {
    if s == [] then 0 else 16 * HexValue(s[..|s| - 1]) + HexToInt(s[|s| - 1])
  }

  /** Printing and reading a length, however large, gives it back. */
  lemma {:induction false} HexRoundTrip(n: nat)
    ensures HexValue(Hex(n)) == n
  {
    if n >= 16 {
      HexRoundTrip(n / 16);
      var s := Hex(n);
      assert s[..|s| - 1] == Hex(n / 16);
    } else {
      assert Hex(n)[..0] == [];
    }
  }

  const HEXDIGITS := "0123456789ABCDEF"

  /** Printed in capitals, without leading zeros. */
  lemma {:induction false} HexIsPlain(n: nat)
    ensures forall i :: 0 <= i < |Hex(n)| ==> exists k :: 0 <= k < 16 && Hex(n)[i] == HEXDIGITS[k] as int
    ensures Hex(n)[0] == '0' as int ==> n == 0
  {
    if n >= 16 {
      HexIsPlain(n / 16);
      assert UpperDigit(n % 16) == HEXDIGITS[n % 16] as int;
    } else {
      assert UpperDigit(n) == HEXDIGITS[n] as int;
    }
  }

  // ----- writing

  function Chunk(data: Text): Text {
    Hex(|data|) + CRLF + data + CRLF
  }

  const LAST_CHUNK: Text := [48] + CRLF

  lemma LastChunkText()
    ensures LAST_CHUNK == ['0' as int, '\r' as int, '\n' as int]
  {
  }

  function Emit(blocks: seq<Text>): Text {
    if blocks == [] then LAST_CHUNK else Chunk(blocks[0]) + Emit(blocks[1..])
  }

  // ----- reading

  /** A chunk with its data, the last chunk, or no chunk at all; with what follows. */
  datatype Unit = Block(data: Text, rest: Text) | Last(rest: Text) | Malformed

  predicate StartsWithCrlf(s: Text) {
    |s| >= 2 && s[0] == CR && s[1] == LF
  }

  function ReadUnit(s: Text): (u: Unit)
    ensures !u.Malformed? ==> |u.rest| < |s|
  {
    var k := HexPrefix(s);
    var size, after := HexValue(s[..k]), s[k..];
    if k == 0 || !StartsWithCrlf(after) then Malformed
    else if size == 0 then Last(after[2..])
    else if |after| < size + 4 || !StartsWithCrlf(after[size + 2..]) then Malformed
    else Block(after[2..size + 2], after[size + 4..])
  }

  /** The body, and the bytes after the last chunk. */
  function Decode(s: Text): Option<(Text, Text)>
    decreases |s|
  {
    match ReadUnit(s)
    case Malformed => None
    case Last(rest) => Some(([], rest))
    case Block(data, rest) =>
      match Decode(rest)
      case None => None
      case Some(r) => Some((data + r.0, r.1))
  }

  // ----- the round trip

  lemma {:induction false} HexPrefixStops(d: Text, t: Text)
    requires forall i :: 0 <= i < |d| ==> HexToInt(d[i]) >= 0
    requires t != [] && HexToInt(t[0]) < 0
    ensures HexPrefix(d + t) == |d|
  {
    if d == [] {
      assert d + t == t;
    } else {
      assert (d + t)[1..] == d[1..] + t;
      HexPrefixStops(d[1..], t);
    }
  }

  /** The length line is read back, whatever follows it. */
  lemma SizeLine(n: nat, t: Text)
    ensures var s := Hex(n) + CRLF + t;
            HexPrefix(s) == |Hex(n)| && HexValue(s[..|Hex(n)|]) == n && s[|Hex(n)|..] == CRLF + t
  {
    var s := Hex(n) + CRLF + t;
    assert s == Hex(n) + (CRLF + t);
    HexPrefixStops(Hex(n), CRLF + t);
    assert s[..|Hex(n)|] == Hex(n);
    HexRoundTrip(n);
  }

  lemma ReadsChunk(data: Text, t: Text)
    requires data != []
    ensures ReadUnit(Chunk(data) + t) == Block(data, t)
  {
    var n := |data|;
    var tail := data + CRLF + t;
    assert Chunk(data) + t == Hex(n) + CRLF + tail;
    SizeLine(n, tail);
    var after := CRLF + tail;
    assert after[2..n + 2] == data;
    assert after[n + 2..] == CRLF + t;
    assert after[n + 4..] == t;
  }

  /** An empty block is written as a last chunk with a stray line end behind it. */
  lemma ReadsEmptyChunk(t: Text)
    ensures ReadUnit(Chunk([]) + t) == Last(CRLF + t)
  {
    assert Chunk([]) + t == Hex(0) + CRLF + (CRLF + t);
    SizeLine(0, CRLF + t);
    assert (CRLF + (CRLF + t))[2..] == CRLF + t;
  }

  lemma ReadsLast(t: Text)
    ensures ReadUnit(LAST_CHUNK + t) == Last(t)
  {
    assert LAST_CHUNK + t == Hex(0) + CRLF + t;
    SizeLine(0, t);
    assert (CRLF + t)[2..] == t;
  }

  /** Non-empty blocks come back as their concatenation, and not a byte more is consumed than was
      written. */
  lemma {:induction false} ChunksRoundTrip(blocks: seq<Text>, t: Text)
    requires forall b :: b in blocks ==> b != []
    ensures Decode(Emit(blocks) + t) == Some((Concat(blocks), t))
  {
    if blocks == [] {
      ReadsLast(t);
    } else {
      var rest := Emit(blocks[1..]) + t;
      assert Emit(blocks) + t == Chunk(blocks[0]) + rest;
      assert blocks[0] in blocks && forall b :: b in blocks[1..] ==> b in blocks;
      ReadsChunk(blocks[0], rest);
      ChunksRoundTrip(blocks[1..], t);
    }
  }

  /** With an empty block among them the reader stops early, before the end of what was written. */
  lemma {:induction false} EmptyBlockEndsBody(blocks: seq<Text>, t: Text)
    requires [] in blocks
    ensures var r := Decode(Emit(blocks) + t);
            r.Some? && |r.value.1| > |t|
  {
    var rest := Emit(blocks[1..]) + t;
    assert Emit(blocks) + t == Chunk(blocks[0]) + rest;
    if blocks[0] == [] {
      ReadsEmptyChunk(rest);
    } else {
      assert [] in blocks[1..];
      ReadsChunk(blocks[0], rest);
      EmptyBlockEndsBody(blocks[1..], t);
    }
  }

  /** So the coding is faithful exactly for lists without an empty block. */
  lemma FaithfulIffNoEmptyBlock(blocks: seq<Text>, t: Text)
    ensures Decode(Emit(blocks) + t) == Some((Concat(blocks), t)) <==> [] !in blocks
  {
    if [] in blocks {
      EmptyBlockEndsBody(blocks, t);
    } else {
      ChunksRoundTrip(blocks, t);
    }
  }

  // ----- the writer on an io_handle

  lemma NoNul(s: Text)
    requires forall i :: 0 <= i < |s| ==> HexToInt(s[i]) >= 0
    ensures NUL !in s + CRLF && CString(s + CRLF) == s + CRLF
  {
  }

  /** http_response_write_chunk: the length line and the line end are printed through the buffer, the data
      goes straight to the socket; the order is kept all the same. */
  method WriteChunk(io: IoHandle, data: Text) returns (ok: bool)
    requires io.Valid()
    modifies io, io.outbuf
    ensures ok ==> io.Valid() && io.Output() == old(io.Output()) + Chunk(data)
  {
    ghost var out := io.Output();
    var line := Hex(|data|) + CRLF;
    NoNul(Hex(|data|));
    ok := io.Fputs(line);
    if ok {
      ok := io.Fwrite(data);
    }
    if ok {
      NoNulInCrlf();
      ok := io.Fputs(CRLF);
      ChunkPutTogether(out, data);
    }
  }

  lemma NoNulInCrlf()
    ensures CString(CRLF) == CRLF
  {
    assert NUL !in CRLF;
  }

  lemma ChunkPutTogether(out: Text, data: Text)
    ensures out + (Hex(|data|) + CRLF) + data + CRLF == out + Chunk(data)
  {
    Regroup(out, Hex(|data|) + CRLF, data);
    Regroup(out, Hex(|data|) + CRLF + data, CRLF);
  }

  /** A whole body, chunk by chunk, and its last chunk. */
  method WriteBody(io: IoHandle, blocks: seq<Text>) returns (ok: bool)
    requires io.Valid()
    modifies io, io.outbuf
    ensures ok ==> io.Valid() && io.Output() == old(io.Output()) + Emit(blocks)
  {
    ghost var out := io.Output();
    ok := true;
    var i := 0;
    ghost var done: Text := [];
    while i < |blocks|
      invariant 0 <= i <= |blocks| && io.Valid() && io.Output() == out + done
      invariant done + Emit(blocks[i..]) == Emit(blocks)
    {
      ok := WriteChunk(io, blocks[i]);
      if !ok {
        return;
      }
      Regroup(out, done, Chunk(blocks[i]));
      assert blocks[i..][1..] == blocks[i + 1..];
      Regroup(done, Chunk(blocks[i]), Emit(blocks[i + 1..]));
      done := done + Chunk(blocks[i]);
      i := i + 1;
    }
    assert blocks[i..] == [];
    ok := io.Fputs(LAST_CHUNK);
    NoNul([48]);
    Regroup(out, done, LAST_CHUNK);
  }
}
