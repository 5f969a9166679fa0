/** The io_handle of src/pthr_iolib.c: a 1024-byte buffer on each side of a socket that reads and writes as
    much or as little as it likes. */
module IoHandles {
  import opened Common
  import opened IoStreams

  lemma OneMore(out: Text, t: Text, i: nat)
    requires i < |t|
    ensures out + t[..i] + [t[i]] == out + t[..i + 1] <= out + t
  {
  }

  /** What stepping over `n` buffered bytes leaves of the stream. */
  lemma StepOver(buf: Text, pos: nat, len: nat, tail: Text, n: nat)
    requires pos + len <= |buf| && n <= len
    ensures (buf[pos..pos + len] + tail)[n..] == buf[pos + n..pos + len] + tail
    ensures (buf[pos..pos + len] + tail)[..n] == buf[pos..pos + n]
  {
  }

  class IoHandle {
    // The socket: what the peer still has to say before end of file, and what it has been sent.
    var incoming: Text
    var sent: Text

    const signedChar: bool

    const inbuf: array<Byte>
    var inpos: nat
    var inlen: nat
    var inbufcount: nat

    const outbuf: array<Byte>
    var outpos: nat
    var outfree: nat
    var outbufcount: nat
    var outmode: Mode

    // How many bytes callers have been given, and have pushed back.
    ghost var delivered: nat
    ghost var pushedBack: nat

    ghost predicate Valid()
      reads this, inbuf, outbuf
    {
      && inbuf.Length == BUFFER_SIZE && outbuf.Length == BUFFER_SIZE && inbuf != outbuf
      && inpos + inlen <= BUFFER_SIZE
      && outpos + outfree == BUFFER_SIZE
      && outbufcount == |sent|
      && inbufcount - inlen == delivered - pushedBack
    }

    /** Everything a caller can still read. */
    ghost function Input(): Text
      requires inpos + inlen <= inbuf.Length
      reads this, inbuf
    {
      inbuf[inpos..inpos + inlen] + incoming
    }

    /** Everything callers have put. */
    ghost function Output(): Text
      requires outpos <= outbuf.Length
      reads this, outbuf
    {
      sent + outbuf[..outpos]
    }

    constructor (stream: Text, signedChar: bool)
      ensures Valid() && Input() == stream && Output() == [] && outmode == LineBuffered
      ensures fresh(inbuf) && fresh(outbuf) && this.signedChar == signedChar
      ensures inbuf.Length == 1024 && outbuf.Length == 1024
    {
      incoming, sent, this.signedChar := stream, [], signedChar;
      inbuf := new Byte[BUFFER_SIZE];
      inpos, inlen, inbufcount := BUFFER_SIZE, 0, 0;
      outbuf := new Byte[BUFFER_SIZE];
      outpos, outfree, outbufcount, outmode := 0, BUFFER_SIZE, 0, LineBuffered;
      delivered, pushedBack := 0, 0;
    }

    // ----- the socket

    /** pth_read of at most `n` bytes: nothing only at end of file, None for an error.  No read is started
        while output is waiting. */
    method PthRead(n: nat) returns (data: Option<Text>)
      requires outpos == 0 && n > 0
      modifies this`incoming
      ensures data.None? ==> incoming == old(incoming)
      ensures data.Some? ==> data.value + incoming == old(incoming) && |data.value| <= n
      ensures data.Some? ==> (data.value == [] <==> old(incoming) == [])
    {
      var error: bool := *;
      if error {
        return None;
      }
      if incoming == [] {
        return Some([]);
      }
      var r: nat :| 1 <= r <= n && r <= |incoming|;
      data := Some(incoming[..r]);
      incoming := incoming[r..];
    }

    /** pth_write: an error, or at least one byte of the data. */
    method PthWrite(data: Text) returns (r: int)
      requires data != []
      modifies this`sent
      ensures r == -1 || 1 <= r <= |data|
      ensures sent == old(sent) + data[..if r == -1 then 0 else r]
    {
      var error: bool := *;
      if error {
        return -1;
      }
      r :| 1 <= r <= |data|;
      sent := sent + data[..r];
    }

    // ----- output

    /** _flush.  False is the write error that ends the thread; with errors ignored the rest of the buffer is
        dropped.  `failed`: the socket refused a write. */
    method Flush(ignoreErrors: bool) returns (ok: bool, ghost failed: bool)
      requires Valid()
      modifies this`sent, this`outpos, this`outfree, this`outbufcount
      ensures outbufcount == |sent| && old(sent) <= sent <= old(Output())
      ensures ok ==> Valid() && outpos == 0 && Input() == old(Input())
      ensures ok <==> ignoreErrors || !failed
      ensures if failed then sent != old(Output()) else sent == old(Output())
    {
      var i := 0;
      failed := false;
      while i < outpos
        modifies this`sent, this`outbufcount
        invariant 0 <= i <= outpos && outbufcount == |sent| && !failed
        invariant sent == old(sent) + outbuf[..i]
      {
        var r := PthWrite(outbuf[i..outpos]);
        if r < 0 {
          failed := true;
          if !ignoreErrors {
            return false, true;
          }
          break;
        }
        assert outbuf[..i] + outbuf[i..outpos][..r] == outbuf[..i + r];
        i := i + r;
        outbufcount := outbufcount + r;
      }
      assert i == outpos ==> sent == old(Output());
      assert old(Output())[..|sent|] == sent;
      outpos, outfree := 0, BUFFER_SIZE;
      ok := true;
    }

    method Fflush() returns (ok: bool)
      requires Valid()
      modifies this`sent, this`outpos, this`outfree, this`outbufcount
      ensures old(sent) <= sent <= old(Output())
      ensures ok ==> Valid() && outpos == 0 && Output() == old(Output()) && Input() == old(Input())
    {
      ok := true;
      if outpos > 0 {
        ghost var failed;
        ok, failed := Flush(false);
      }
    }

    /** io_fputc */
    method Fputc(c: int) returns (ok: bool)
      requires Valid()
      modifies this`sent, this`outpos, this`outfree, this`outbufcount, outbuf
      ensures old(sent) <= sent <= old(Output()) + [Stored(c)]
      ensures ok ==> Valid() && Output() == old(Output()) + [Stored(c)] && Input() == old(Input())
      ensures ok && (outmode == Unbuffered || (outmode == LineBuffered && c == LF)) ==> outpos == 0
      ensures ok && !(outmode == Unbuffered || (outmode == LineBuffered && c == LF)) ==>
                sent == if old(outfree) == 0 then old(Output()) else old(sent)
    {
      if outfree == 0 {
        ghost var failed;
        ok, failed := Flush(false);
        if !ok {
          return;
        }
      }
      outbuf[outpos] := Stored(c);
      outpos, outfree := outpos + 1, outfree - 1;
      assert Output() == old(Output()) + [Stored(c)];
      ok := true;
      if outmode == Unbuffered || (outmode == LineBuffered && c == LF) {
        ghost var failed;
        ok, failed := Flush(false);
      }
    }

    /** io_fputs: up to the terminating NUL. */
    method Fputs(s: Text) returns (ok: bool)
      requires Valid()
      modifies this`sent, this`outpos, this`outfree, this`outbufcount, outbuf
      ensures old(sent) <= sent <= old(Output()) + CString(s)
      ensures ok ==> Valid() && Output() == old(Output()) + CString(s) && Input() == old(Input())
    {
      ghost var out, t := Output(), CString(s);
      ok := true;
      var i := 0;
      assert t[..0] == [];
      while i < |s| && s[i] != NUL
        invariant 0 <= i <= |t|
        invariant Valid() && old(sent) <= sent && Output() == out + t[..i] && Input() == old(Input())
      {
        ghost var before := sent;
        EofClash(s[i], signedChar);
        ok := Fputc(AsChar(s[i], signedChar));
        OneMore(out, t, i);
        assert old(sent) <= before <= sent;
        if !ok {
          return;
        }
        i := i + 1;
      }
      assert t[..i] == t;
      assert sent <= Output();
    }

    /** io_fwrite: flush, then straight to the socket. */
    method Fwrite(data: Text) returns (ok: bool)
      requires Valid()
      modifies this`sent, this`outpos, this`outfree, this`outbufcount
      ensures old(sent) <= sent <= old(Output()) + data
      ensures ok ==> Valid() && Output() == old(Output()) + data && outpos == 0 && Input() == old(Input())
    {
      ok := Fflush();
      if !ok {
        return;
      }
      var i := 0;
      while i < |data|
        modifies this`sent, this`outbufcount
        invariant 0 <= i <= |data| && outbufcount == |sent|
        invariant sent == old(Output()) + data[..i]
      {
        var r := PthWrite(data[i..]);
        if r < 0 {
          ok := false;
          assert data[..i] <= data;
          return;
        }
        assert data[..i] + data[i..][..r] == data[..i + r];
        Regroup(old(Output()), data[..i], data[i..][..r]);
        i := i + r;
        outbufcount := outbufcount + r;
      }
      assert data[..i] == data;
    }

    method SetBufMode(mode: Mode)
      requires Valid()
      modifies this`outmode
      ensures Valid() && outmode == mode && Output() == old(Output()) && Input() == old(Input())
    {
      outmode := mode;
    }

    // ----- input

    /** The refill in io_fgetc. */
    method Refill() returns (ok: bool)
      requires Valid() && inlen == 0 && outpos == 0
      modifies this`incoming, this`inpos, this`inlen, this`inbufcount, inbuf
      ensures ok ==> Valid() && inpos == 0 && Input() == old(Input())
      ensures ok ==> (inlen == 0 <==> old(Input()) == []) && outbuf[..] == old(outbuf[..])
    {
      var data := PthRead(BUFFER_SIZE);
      if data.None? {
        return false;
      }
      var d := data.value;
      for i := 0 to |d|
        modifies inbuf
        invariant inbuf[..i] == d[..i]
      {
        inbuf[i] := d[i];
      }
      inpos, inlen, inbufcount := 0, |d|, inbufcount + |d|;
      assert inbuf[..|d|] == d;
      ok := true;
    }

    /** io_fgetc: the next byte as a char, or -1 at end of file. */
    method Fgetc() returns (c: int, ok: bool)
      requires Valid()
      modifies this, inbuf
      ensures outmode == old(outmode)
      ensures ok ==> Valid() && outpos == 0 && Output() == old(Output())
      ensures ok && old(Input()) == [] ==> c == -1 && Input() == [] && delivered == old(delivered)
      ensures ok && old(Input()) != [] ==>
                && c == AsChar(old(Input())[0], signedChar) && Input() == old(Input())[1..]
                && delivered == old(delivered) + 1 && inpos > 0
      ensures ok ==> pushedBack == old(pushedBack)
    {
      c := -1;
      ok := Fflush();
      if !ok {
        return;
      }
      if inlen == 0 {
        ok := Refill();
        if !ok || inlen == 0 {
          return;
        }
      }
      c := TakeOne();
    }

    /** The next buffered byte. */
    method TakeOne() returns (c: int)
      requires Valid() && inlen > 0
      modifies this`inpos, this`inlen, this`delivered
      ensures Valid() && inpos > 0 && delivered == old(delivered) + 1
      ensures c == AsChar(old(Input())[0], signedChar) && Input() == old(Input())[1..]
    {
      StepOver(inbuf[..], inpos, inlen, incoming, 1);
      c := AsChar(inbuf[inpos], signedChar);
      inpos, inlen := inpos + 1, inlen - 1;
      delivered := delivered + 1;
    }

    /** io_ungetc: room in front of the buffered bytes, or -1. */
    method Ungetc(c: int) returns (r: int)
      requires Valid()
      modifies this`inpos, this`inlen, this`pushedBack, inbuf
      ensures Valid() && Output() == old(Output())
      ensures old(inpos) > 0 ==> r == c && Input() == [Stored(c)] + old(Input()) && pushedBack == old(pushedBack) + 1
      ensures old(inpos) == 0 ==> r == -1 && Input() == old(Input()) && pushedBack == old(pushedBack)
    {
      if inpos > 0 {
        inpos := inpos - 1;
        inbuf[inpos] := Stored(c);
        inlen := inlen + 1;
        pushedBack := pushedBack + 1;
        assert inbuf[inpos..inpos + inlen] == [Stored(c)] + old(inbuf[inpos..inpos + inlen]);
        return c;
      }
      return -1;
    }

    /** io_fread: from the buffer first, then straight from the socket until it is satisfied or at end of
        file. */
    method Fread(n: nat) returns (data: Text, ok: bool)
      requires Valid()
      modifies this
      ensures ok ==> Valid() && outpos == 0 && Output() == old(Output())
      ensures ok ==> data + Input() == old(Input()) && |data| <= n && (|data| < n ==> Input() == [])
      ensures ok ==> delivered == old(delivered) + |data| && pushedBack == old(pushedBack)
      ensures outmode == old(outmode)
    {
      data := [];
      ok := Fflush();
      if !ok {
        return;
      }
      data := TakeBuffered(n);
      if |data| < n {
        var more;
        more, ok := ReadDirect(n - |data|);
        assert ok ==> (data + more) + Input() == data + (more + Input());
        data := data + more;
      }
    }

    method TakeBuffered(n: nat) returns (data: Text)
      requires Valid()
      modifies this`inpos, this`inlen, this`delivered
      ensures Valid() && data + Input() == old(Input()) && |data| <= n && (|data| < n ==> inlen == 0)
      ensures delivered == old(delivered) + |data|
    {
      var i := if n > inlen then inlen else n;
      data := inbuf[inpos..inpos + i];
      inlen, inpos := inlen - i, inpos + i;
      delivered := delivered + i;
      assert data + inbuf[inpos..inpos + inlen] == old(inbuf[inpos..inpos + inlen]);
    }

    method ReadDirect(n: nat) returns (data: Text, ok: bool)
      requires Valid() && inlen == 0 && outpos == 0
      modifies this`incoming, this`inbufcount, this`delivered
      ensures ok ==> Valid() && data + Input() == old(Input()) && |data| <= n && (|data| < n ==> Input() == [])
      ensures ok ==> delivered == old(delivered) + |data|
    {
      data, ok := [], true;
      while |data| < n
        invariant |data| <= n && data + incoming == old(incoming)
        invariant inbufcount == old(inbufcount) + |data| && delivered == old(delivered) + |data|
      {
        var more := PthRead(n - |data|);
        if more.None? {
          ok := false;
          return;
        }
        if more.value == [] {
          return;
        }
        assert (data + more.value) + incoming == data + (more.value + incoming);
        data := data + more.value;
        inbufcount := inbufcount + |more.value|;
        delivered := delivered + |more.value|;
      }
    }

    /** io_fgets */
    method Fgets(maxSize: int, storeEol: bool) returns (line: Option<Text>, ok: bool)
      requires Valid()
      modifies this, inbuf
      ensures outmode == old(outmode)
      ensures var room := if maxSize <= 1 then 0 else maxSize - 1;
              ok ==>
                && Valid() && outpos == 0 && Output() == old(Output())
                && line == Line(old(Input()), room, storeEol, signedChar)
                && Input() == AfterPiece(old(Input()), room, signedChar)
    {
      line := None;
      ok := Fflush();
      if !ok {
        return;
      }
      var s, cut;
      s, cut, ok := GetPiece(if maxSize <= 1 then 0 else maxSize - 1);
      if !ok {
        return;
      }
      if cut {
        line := if |s| > 0 then Some(s) else None;
      } else {
        if !storeEol {
          s := Strip(s);
        }
        line := Some(s);
      }
    }

    method GetPiece(room: nat) returns (s: Text, cut: bool, ok: bool)
      requires Valid() && outpos == 0
      modifies this, inbuf
      ensures outmode == old(outmode)
      ensures ok ==> Valid() && outpos == 0 && Output() == old(Output())
      ensures ok ==> s == Piece(old(Input()), room, signedChar) && cut == CutShort(s, room)
      ensures ok ==> Input() == AfterPiece(old(Input()), room, signedChar)
    {
      ghost var input := Input();
      s, cut, ok := [], false, true;
      var newline := false;
      while |s| < room && !newline && !cut
        invariant Valid() && outpos == 0 && Output() == old(Output()) && outmode == old(outmode)
        invariant !cut ==> Reading(input, room, signedChar, s, Input(), newline)
        invariant cut ==> PieceEnds(input, room, s, true)
        decreases room - |s|, !cut
      {
        s, newline, cut, ok := ReadOne(input, room, s);
        if !ok {
          return;
        }
      }
      if !cut {
        ReadStops(input, room, signedChar, s, Input(), newline);
      }
    }

    /** `s` is the piece, and the rest of the input is still there. */
    ghost predicate PieceEnds(input: Text, room: nat, s: Text, cut: bool)
      requires inpos + inlen <= inbuf.Length
      reads this, inbuf
    {
      && s == Piece(input, room, signedChar) && cut == CutShort(s, room)
      && Input() == AfterPiece(input, room, signedChar)
    }

    /** One turn of the loop of io_fgets. */
    method ReadOne(ghost input: Text, room: nat, s: Text) returns (s': Text, newline: bool, cut: bool, ok: bool)
      requires Valid() && outpos == 0 && |s| < room && Reading(input, room, signedChar, s, Input(), false)
      modifies this, inbuf
      ensures outmode == old(outmode)
      ensures ok ==> Valid() && outpos == 0 && Output() == old(Output())
      ensures ok && !cut ==> |s'| == |s| + 1 && Reading(input, room, signedChar, s', Input(), newline)
      ensures ok && cut ==> s' == s && PieceEnds(input, room, s, true)
    {
      ghost var rest := Input();
      s', newline, cut := s, false, false;
      var c;
      c, ok := Fgetc();
      if !ok {
        return;
      }
      if rest != [] {
        EofClash(rest[0], signedChar);
      }
      if c == -1 {
        ReadStops(input, room, signedChar, s, rest, false);
        cut := true;
      } else {
        ReadByte(input, room, signedChar, s, rest);
        s', newline := s + [Stored(c)], c == LF;
      }
    }

    /** The loop that removes trailing CR and LF. */
    method Strip(s: Text) returns (r: Text)
      ensures r == StripEol(s)
    {
      r := s;
      while |r| > 0 && IsEol(r[|r| - 1])
        invariant StripEol(r) == StripEol(s)
      {
        r := r[..|r| - 1];
      }
    }

    /** io_fclose: everything that was put is on the socket unless it refused a write, and then a part of it is. */
    method Fclose() returns (ghost failed: bool)
      requires Valid()
      modifies this`sent, this`outpos, this`outfree, this`outbufcount
      ensures Valid() && outpos == 0 && old(sent) <= sent <= old(Output()) && Input() == old(Input())
      ensures if failed then sent != old(Output()) else sent == old(Output())
    {
      failed := false;
      if outpos > 0 {
        var _, f := Flush(true);
        failed := f;
      }
    }

    /** The loop of the echo example: while (io_fgets (...)) io_fputs (...), on any input.  It ends, for any
        buffer that holds a byte. */
    method Echo(size: int) returns (ok: bool)
      requires Valid() && size >= 2
      modifies this, inbuf, outbuf
      ensures ok ==> Valid() && Input() == Unread(old(Input()), size - 1, signedChar)
      ensures ok ==> Output() == old(Output()) + Echoed(old(Input()), size - 1, signedChar)
    {
      ghost var out, input, done := Output(), Input(), [];
      var more := true;
      while more
        invariant Valid() && Output() == out + done
        invariant more ==> done + Echoed(Input(), size - 1, signedChar) == Echoed(input, size - 1, signedChar)
        invariant more ==> Unread(Input(), size - 1, signedChar) == Unread(input, size - 1, signedChar)
        invariant !more ==> done == Echoed(input, size - 1, signedChar)
        invariant !more ==> Input() == Unread(input, size - 1, signedChar)
        decreases more, |Input()|
      {
        ghost var r := CString(Piece(Input(), size - 1, signedChar));
        more, ok := EchoLine(size);
        if !ok {
          return;
        }
        Regroup(out, done, r);
        if more {
          Regroup(done, r, Echoed(Input(), size - 1, signedChar));
        }
        done := done + r;
      }
      ok := true;
    }

    /** One turn: a line in, and out again as far as a C string goes. */
    method EchoLine(size: int) returns (more: bool, ok: bool)
      requires Valid() && size >= 2
      modifies this, inbuf, outbuf
      ensures ok ==> Valid() && Input() == AfterPiece(old(Input()), size - 1, signedChar)
      ensures ok ==> (more <==> Piece(old(Input()), size - 1, signedChar) != [])
      ensures ok ==> Output() == old(Output()) + CString(Piece(old(Input()), size - 1, signedChar))
    {
      var line;
      line, ok := Fgets(size, true);
      more := line.Some?;
      if ok && more {
        ok := Fputs(line.value);
      }
    }

    // ----- io_copy

    /** The refill of io_copy: one character read and pushed back, which always works.  False at end of
        file, or at a byte that looks like it. */
    method FillForCopy() returns (more: bool, ghost dropped: Text, ok: bool)
      requires Valid()
      modifies this, inbuf
      ensures ok ==> Valid() && Output() == old(Output()) && dropped + Input() == old(Input())
      ensures ok ==> Droppable(dropped, signedChar)
      ensures ok ==> if more then dropped == [] && inlen > 0 else old(Input()) == dropped + Input()
      ensures old(inlen) > 0 ==> ok && more && inlen == old(inlen)
      ensures ok && !more ==> old(inlen) == 0 && (old(Input()) == [] <==> dropped == [])
      ensures ok && old(inlen) == 0 && old(Input()) != [] && LooksLikeEof(old(Input())[0], signedChar) ==> !more
    {
      dropped := [];
      if inlen > 0 {
        return true, [], true;
      }
      ghost var input := Input();
      var c;
      c, ok := Fgetc();
      more := false;
      if ok {
        if input != [] {
          EofClash(input[0], signedChar);
          dropped := [input[0]];
        }
        if c != -1 {
          var r := Ungetc(c);
          more, dropped := true, [];
        }
      }
    }

    ghost predicate Apart(to: IoHandle)
      reads this, to
    {
      to == this || (inbuf != to.inbuf && inbuf != to.outbuf && outbuf != to.inbuf && outbuf != to.outbuf)
    }

    /** Write `n` buffered bytes to `to` and step over them. */
    method MoveChunk(to: IoHandle, n: nat) returns (ok: bool)
      requires Valid() && to.Valid() && Apart(to) && n <= inlen
      modifies this`inpos, this`inlen, this`delivered, to`sent, to`outpos, to`outfree, to`outbufcount
      ensures ok ==> Valid() && to.Valid() && (to != this ==> Output() == old(Output()))
      ensures ok ==> Input() == old(Input())[n..] && to.Output() == old(to.Output()) + old(Input())[..n]
      ensures inlen == old(inlen) - n
    {
      StepOver(inbuf[..], inpos, inlen, incoming, n);
      ok := to.Fwrite(inbuf[inpos..inpos + n]);
      inpos, inlen := inpos + n, inlen - n;
      delivered := delivered + n;
    }

    /** io_copy.  It moves `len` bytes or everything there is, whichever is less (everything for -1), unless it
        loses a byte to the clash and stops there.  Bytes that were buffered before are safe; the first one
        behind them, if it is to be moved and looks like end of file, is always lost.  The two handles may
        be the same. */
    method CopyTo(to: IoHandle, len: int) returns (count: nat, ok: bool, ghost moved: Text, ghost dropped: Text)
      requires Valid() && to.Valid() && Apart(to) && len >= -1
      modifies this, inbuf, to`sent, to`outpos, to`outfree, to`outbufcount
      ensures ok ==> Valid() && to.Valid() && (to != this ==> Output() == old(Output()))
      ensures ok ==> Copied(old(Input()), Want(len, |old(Input())|), moved, dropped, Input(), signedChar)
      ensures ok ==> count == |moved| && to.Output() == old(to.Output()) + moved
      ensures ok && dropped != [] ==> |moved| >= old(inlen)
      ensures ok && CleanFrom(old(Input()), old(inlen), Want(len, |old(Input())|), signedChar) ==> dropped == []
      ensures ok && old(inlen) < Want(len, |old(Input())|) && LooksLikeEof(old(Input())[old(inlen)], signedChar) ==>
                |moved| == old(inlen) && dropped == [old(Input())[old(inlen)]]
    {
      count, moved, dropped := 0, [], [];
      ghost var input, buffered := Input(), inlen;
      ok := Fflush();
      if ok {
        count, ok, moved, dropped := CopyLoop(to, len);
        if ok {
          DropsOnlyWanted(input, Want(len, |input|), buffered, moved, dropped, Input(), signedChar);
          assert dropped != [] ==> input[|moved|] == dropped[0];
        }
      }
    }

    method CopyLoop(to: IoHandle, len: int) returns (count: nat, ok: bool, ghost moved: Text, ghost dropped: Text)
      requires Valid() && to.Valid() && Apart(to) && len >= -1
      modifies this, inbuf, to`sent, to`outpos, to`outfree, to`outbufcount
      ensures ok ==> Valid() && to.Valid() && (to != this ==> Output() == old(Output()))
      ensures ok ==> Copied(old(Input()), Want(len, |old(Input())|), moved, dropped, Input(), signedChar)
      ensures ok ==> count == |moved| && to.Output() == old(to.Output()) + moved
      ensures ok && dropped != [] ==> |moved| >= old(inlen)
      ensures ok && old(inlen) < Want(len, |old(Input())|) && LooksLikeEof(old(Input())[old(inlen)], signedChar) ==>
                |moved| == old(inlen)
    {
      count, moved, dropped, ok := 0, [], [], true;
      ghost var input, out, buffered := Input(), to.Output(), inlen;
      var left := len;
      while left != 0
        invariant Valid() && to.Valid() && (to != this ==> Output() == old(Output())) && dropped == []
        invariant Copying(input, len, left, moved, Input(), buffered, inlen, signedChar)
        invariant count == |moved| && to.Output() == out + moved
        decreases |Input()|
      {
        var n;
        ghost var chunk, rest, before := [], Input(), inlen;
        n, chunk, dropped, ok := CopyChunk(to, left);
        if !ok {
          return;
        }
        if n == 0 {
          CopyStops(input, len, left, moved, rest, buffered, before, signedChar, dropped, Input());
          return;
        }
        CopyGoesOn(input, len, left, moved, rest, buffered, before, signedChar, chunk, Input(), inlen);
        Regroup(out, moved, chunk);
        moved, count := moved + chunk, count + n;
        if left > 0 {
          left := left - n;
        }
      }
      CopyStops(input, len, left, moved, Input(), buffered, inlen, signedChar, [], Input());
    }

    /** One turn of the copy loop.  A byte that looks like end of file, first in an empty buffer, stops it. */
    method CopyChunk(to: IoHandle, left: int) returns (n: nat, ghost chunk: Text, ghost dropped: Text, ok: bool)
      requires Valid() && to.Valid() && Apart(to) && left >= -1 && left != 0
      modifies this, inbuf, to`sent, to`outpos, to`outfree, to`outbufcount
      ensures ok ==> Valid() && to.Valid() && (to != this ==> Output() == old(Output()))
      ensures ok ==> n == |chunk| && (left >= 0 ==> n <= left) && Droppable(dropped, signedChar)
      ensures ok && n == 0 ==> dropped + Input() == old(Input()) && (dropped == [] ==> Input() == [])
      ensures ok && n > 0 ==> dropped == [] && chunk + Input() == old(Input())
      ensures ok ==> to.Output() == old(to.Output()) + chunk
      ensures ok && n > 0 && old(inlen) == 0 ==> !LooksLikeEof(old(Input())[0], signedChar)
      ensures ok && old(inlen) > 0 ==> 0 < n <= old(inlen) && inlen == old(inlen) - n
    {
      n, chunk := 0, [];
      var more;
      more, dropped, ok := FillForCopy();
      if ok && more {
        n, chunk, ok := MoveSome(to, left);
      }
    }

    method MoveSome(to: IoHandle, left: int) returns (n: nat, ghost chunk: Text, ok: bool)
      requires Valid() && to.Valid() && Apart(to) && left >= -1 && left != 0 && inlen > 0
      modifies this`inpos, this`inlen, this`delivered, to`sent, to`outpos, to`outfree, to`outbufcount
      ensures ok ==> Valid() && to.Valid() && (to != this ==> Output() == old(Output()))
      ensures ok ==> n == |chunk| > 0 && (left >= 0 ==> n <= left) && inlen == old(inlen) - n
      ensures ok ==> chunk + Input() == old(Input()) && to.Output() == old(to.Output()) + chunk
    {
      n := if left == -1 || left >= inlen then inlen else left;
      ghost var input := Input();
      chunk := input[..n];
      assert input == chunk + input[n..];
      ok := MoveChunk(to, n);
    }
  }
}
