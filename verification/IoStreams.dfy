/** Buffered I/O, src/pthr_iolib.c, as seen by a caller: one stream of bytes to take from and one to add
    to. */
module IoStreams {
  import opened Common

  type Byte = x: int | 0 <= x < 256
  type Text = seq<Byte>

  const BUFFER_SIZE := 1024
  const NUL: Byte := 0
  const LF: Byte := 10
  const CR: Byte := 13

  datatype Mode = LineBuffered | Unbuffered | FullyBuffered

  /** A byte read through a plain `char`: negative from 128 on where char is signed. */
  function AsChar(b: Byte, signed: bool): int {
    if signed && b >= 128 then b - 256 else b
  }

  /** An int stored into a char. */
  function Stored(c: int): Byte {
    c % 256
  }

  /** The byte that io_fgetc returns as -1, the value it also returns at end of file. */
  predicate LooksLikeEof(b: Byte, signed: bool) {
    signed && b == 255
  }

  /** Only the low byte is kept. */
  lemma StoredIsLowByte(c: int)
    ensures (c - Stored(c)) % 256 == 0
  {
  }

  lemma EofClash(b: Byte, signed: bool)
    ensures AsChar(b, signed) == -1 <==> LooksLikeEof(b, signed)
    ensures Stored(AsChar(b, signed)) == b
    ensures if signed then -128 <= AsChar(b, signed) < 128 else AsChar(b, signed) == b
  {
  }

  predicate Clean(s: Text, signed: bool) {
    forall b :: b in s ==> !LooksLikeEof(b, signed)
  }

  /** What a C string function sees of a buffer. */
  function CString(s: Text): (r: Text)
    ensures r <= s && NUL !in r
    ensures NUL !in s ==> r == s
    ensures |r| < |s| ==> s[|r|] == NUL
  {
    if s == [] || s[0] == NUL then [] else [s[0]] + CString(s[1..])
  }

  // ----- io_fgets

  /** The bytes that one io_fgets with room for `room` bytes stores. */
  function Piece(s: Text, room: nat, signed: bool): (r: Text)
    ensures |r| <= room && r <= s
  {
    if room == 0 || s == [] || LooksLikeEof(s[0], signed) then []
    else if s[0] == LF then [LF]
    else [s[0]] + Piece(s[1..], room - 1, signed)
  }

  /** Did it stop for want of input, rather than at a newline or a full buffer? */
  predicate CutShort(r: Text, room: nat) {
    |r| < room && (r == [] || r[|r| - 1] != LF)
  }

  /** What is left of the stream: a byte taken for end of file is gone. */
  function AfterPiece(s: Text, room: nat, signed: bool): Text {
    var r := Piece(s, room, signed);
    if CutShort(r, room) && |r| < |s| then s[|r| + 1..] else s[|r|..]
  }

  /** The loop of io_fgets with `s` stored, `rest` still to come, and whether a newline has been seen. */
  ghost predicate Reading(input: Text, room: nat, signed: bool, s: Text, rest: Text, newline: bool) {
    && s + rest == input && |s| <= room
    && (newline ==> s != [] && s[|s| - 1] == LF && s == Piece(input, room, signed))
    && (!newline ==> (s == [] || s[|s| - 1] != LF) && Piece(input, room, signed) == s + Piece(rest, room - |s|, signed))
  }

  lemma ReadByte(input: Text, room: nat, signed: bool, s: Text, rest: Text)
    requires Reading(input, room, signed, s, rest, false) && |s| < room && rest != [] && !LooksLikeEof(rest[0], signed)
    ensures Reading(input, room, signed, s + [rest[0]], rest[1..], rest[0] == LF)
  {
    assert [rest[0]] + rest[1..] == rest;
    Regroup(s, [rest[0]], rest[1..]);
    if rest[0] == LF {
      assert Piece(rest, room - |s|, signed) == [LF];
    } else {
      PieceGoesOn(s, rest, room - |s|, signed);
    }
  }

  lemma PieceGoesOn(s: Text, rest: Text, room: nat, signed: bool)
    requires room > 0 && rest != [] && !LooksLikeEof(rest[0], signed) && rest[0] != LF
    ensures s + Piece(rest, room, signed) == (s + [rest[0]]) + Piece(rest[1..], room - 1, signed)
  {
    Regroup(s, [rest[0]], Piece(rest[1..], room - 1, signed));
  }

  lemma ReadStops(input: Text, room: nat, signed: bool, s: Text, rest: Text, newline: bool)
    requires Reading(input, room, signed, s, rest, newline)
    requires newline || |s| == room || rest == [] || LooksLikeEof(rest[0], signed)
    ensures s == Piece(input, room, signed)
    ensures CutShort(s, room) <==> !newline && |s| < room
    ensures AfterPiece(input, room, signed) == if CutShort(s, room) && rest != [] then rest[1..] else rest
  {
    assert input[|s|..] == rest;
    assert rest != [] ==> input[|s| + 1..] == rest[1..];
  }

  predicate IsEol(b: Byte) {
    b == LF || b == CR
  }

  function StripEol(s: Text): (r: Text)
    ensures r <= s && (r == [] || !IsEol(r[|r| - 1]))
    ensures forall i :: |r| <= i < |s| ==> IsEol(s[i])
  {
    if s != [] && IsEol(s[|s| - 1]) then StripEol(s[..|s| - 1]) else s
  }

  /** The result of io_fgets: null at end of file; a line cut short keeps its trailing CRs. */
  function Line(s: Text, room: nat, storeEol: bool, signed: bool): Option<Text> {
    var r := Piece(s, room, signed);
    if CutShort(r, room) then (if r == [] then None else Some(r))
    else Some(if storeEol then r else StripEol(r))
  }

  /** With the end of line to be removed, a line still ends in one exactly if it was cut short behind a
      carriage return. */
  lemma EolLeftExactlyAtEof(s: Text, room: nat, signed: bool, r: Text)
    requires Line(s, room, false, signed) == Some(r)
    ensures var p := Piece(s, room, signed);
            (r != [] && IsEol(r[|r| - 1])) <==> (CutShort(p, room) && p != [] && p[|p| - 1] == CR)
  {
  }

  /** A line that was not cut short is the piece without its trailing run of CR and LF, all of it and no
      more; with the end of line kept, the piece. */
  lemma LineIsPieceWithoutEol(s: Text, room: nat, storeEol: bool, signed: bool)
    requires !CutShort(Piece(s, room, signed), room)
    ensures var p, line := Piece(s, room, signed), Line(s, room, storeEol, signed);
            && line.Some? && (storeEol ==> line.value == p)
            && (!storeEol ==>
                  && line.value <= p && (forall i :: |line.value| <= i < |p| ==> p[i] == CR || p[i] == LF)
                  && (line.value == [] || !(line.value[|line.value| - 1] == CR || line.value[|line.value| - 1] == LF)))
  {
  }

  /** One that was is as it came; and at end of file there is none. */
  lemma LineAtEof(s: Text, room: nat, storeEol: bool, signed: bool)
    requires CutShort(Piece(s, room, signed), room)
    ensures var p := Piece(s, room, signed);
            Line(s, room, storeEol, signed) == if p == [] then None else Some(p)
  {
  }

  /** The text "a", CR at the end of the input. */
  lemma EolCanBeLeft(room: nat, signed: bool)
    requires room > 2
    ensures Line([97, CR], room, false, signed) == Some([97, CR])
  {
    assert [97, CR][1..] == [CR] && [CR][1..] == [];
    var none: Text := Piece([], room - 2, signed);
    assert Piece([CR], room - 1, signed) == [CR] + none == [CR];
    assert Piece([97, CR], room, signed) == [97] + [CR] == [97, CR];
    assert CutShort([97, CR], room);
  }

  lemma {:induction false} NewlineOnlyLast(s: Text, room: nat, signed: bool, i: nat)
    requires i < |Piece(s, room, signed)| - 1
    ensures Piece(s, room, signed)[i] != LF
  {
    if i > 0 {
      NewlineOnlyLast(s[1..], room - 1, signed, i - 1);
    }
  }

  lemma CutShortTail(s: Text, room: nat, signed: bool)
    requires CutShort(Piece(s, room, signed), room) && Piece(s, room, signed) != []
    ensures Piece(s, room, signed) == [s[0]] + Piece(s[1..], room - 1, signed)
    ensures CutShort(Piece(s[1..], room - 1, signed), room - 1)
  {
    var r, t := Piece(s, room, signed), Piece(s[1..], room - 1, signed);
    assert t != [] ==> r[|r| - 1] == t[|t| - 1];
  }

  lemma {:induction false} CutShortAtEof(s: Text, room: nat, signed: bool)
    requires CutShort(Piece(s, room, signed), room) && |Piece(s, room, signed)| < |s|
    ensures LooksLikeEof(s[|Piece(s, room, signed)|], signed)
  {
    if Piece(s, room, signed) != [] {
      CutShortTail(s, room, signed);
      CutShortAtEof(s[1..], room - 1, signed);
    }
  }

  /** Reading lines until io_fgets returns null. */
  function Pieces(s: Text, room: nat, signed: bool): seq<Text>
    requires room > 0
    decreases |s|
  {
    var r := Piece(s, room, signed);
    if r == [] then [] else [r] + Pieces(AfterPiece(s, room, signed), room, signed)
  }

  function Concat(ps: seq<Text>): Text {
    if ps == [] then [] else ps[0] + Concat(ps[1..])
  }

  /** Pieces that fit, with a newline only at the end, each but the last full or ended by its newline. */
  ghost predicate WellCut(ps: seq<Text>, room: nat) {
    && (forall k :: 0 <= k < |ps| ==> GoodPiece(ps[k], room))
    && (forall k :: 0 <= k < |ps| - 1 ==> !CutShort(ps[k], room))
  }

  lemma FirstPieceIsGood(s: Text, room: nat, signed: bool)
    requires Piece(s, room, signed) != []
    ensures GoodPiece(Piece(s, room, signed), room)
  {
    var r := Piece(s, room, signed);
    forall i | 0 <= i < |r| - 1
      ensures r[i] != LF
    {
      NewlineOnlyLast(s, room, signed, i);
    }
  }

  lemma WellCutCons(r: Text, ps: seq<Text>, room: nat)
    requires GoodPiece(r, room) && WellCut(ps, room) && (ps != [] ==> !CutShort(r, room))
    ensures WellCut([r] + ps, room)
  {
    forall k | 0 <= k < |[r] + ps| - 1
      ensures !CutShort(([r] + ps)[k], room)
    {
      assert k > 0 ==> ([r] + ps)[k] == ps[k - 1];
    }
  }

  lemma ConcatCons(r: Text, ps: seq<Text>)
    ensures Concat([r] + ps) == r + Concat(ps)
  {
    assert ([r] + ps)[1..] == ps;
  }

  lemma PieceAndRest(s: Text, room: nat, signed: bool)
    requires room > 0 && Clean(s, signed) && AfterPiece(s, room, signed) == s[|Piece(s, room, signed)|..]
    ensures Piece(s, room, signed) + AfterPiece(s, room, signed) == s
    ensures Piece(s, room, signed) == [] ==> s == []
  {
    assert s != [] ==> s[0] in s;
  }

  /** Line by line, a stream without the clashing byte comes back whole. */
  lemma {:induction false} CleanStreamComesBack(s: Text, room: nat, signed: bool)
    requires room > 0 && Clean(s, signed)
    ensures Concat(Pieces(s, room, signed)) == s
    decreases |s|
  {
    var r, rest := Piece(s, room, signed), AfterPiece(s, room, signed);
    CleanRest(s, room, signed);
    PieceAndRest(s, room, signed);
    if r != [] {
      CleanStreamComesBack(rest, room, signed);
      ConcatCons(r, Pieces(rest, room, signed));
    }
  }

  /** ... and its pieces are well cut. */
  lemma {:induction false} CleanStreamIsWellCut(s: Text, room: nat, signed: bool)
    requires room > 0 && Clean(s, signed)
    ensures WellCut(Pieces(s, room, signed), room)
    decreases |s|
  {
    var r, rest := Piece(s, room, signed), AfterPiece(s, room, signed);
    if r != [] {
      CleanRest(s, room, signed);
      CleanStreamIsWellCut(rest, room, signed);
      FirstPieceIsGood(s, room, signed);
      WellCutCons(r, Pieces(rest, room, signed), room);
    }
  }

  /** No line ever holds the clashing byte. */
  lemma {:induction false} PieceIsClean(s: Text, room: nat, signed: bool)
    ensures Clean(Piece(s, room, signed), signed)
  {
    var r := Piece(s, room, signed);
    if r != [] && s[0] != LF {
      PieceIsClean(s[1..], room - 1, signed);
    }
  }

  lemma {:induction false} PiecesAreClean(s: Text, room: nat, signed: bool)
    requires room > 0
    ensures Clean(Concat(Pieces(s, room, signed)), signed)
    decreases |s|
  {
    var r := Piece(s, room, signed);
    if r != [] {
      var rest := AfterPiece(s, room, signed);
      PieceIsClean(s, room, signed);
      PiecesAreClean(rest, room, signed);
      ConcatCons(r, Pieces(rest, room, signed));
    }
  }

  /** A stream with the clashing byte anywhere in it comes back shorter. */
  lemma {:induction false} ClashingBytesAreLost(s: Text, room: nat, signed: bool)
    requires room > 0
    ensures |Concat(Pieces(s, room, signed))| <= |s|
    ensures !Clean(s, signed) ==> |Concat(Pieces(s, room, signed))| < |s|
    decreases |s|
  {
    var r := Piece(s, room, signed);
    if r != [] {
      var rest := AfterPiece(s, room, signed);
      ClashingBytesAreLost(rest, room, signed);
      ConcatCons(r, Pieces(rest, room, signed));
      PieceIsClean(s, room, signed);
      assert s == s[..|r|] + s[|r|..];
    }
  }

  /** Reading lines gives back the stream exactly if it is free of the clashing byte, and then the pieces
      are well cut. */
  lemma PiecesAreTheStream(s: Text, room: nat, signed: bool)
    requires room > 0
    ensures Concat(Pieces(s, room, signed)) == s <==> Clean(s, signed)
    ensures Clean(s, signed) ==> WellCut(Pieces(s, room, signed), room)
  {
    PiecesAreClean(s, room, signed);
    if Clean(s, signed) {
      CleanStreamComesBack(s, room, signed);
      CleanStreamIsWellCut(s, room, signed);
    }
  }

  lemma CleanRest(s: Text, room: nat, signed: bool)
    requires Clean(s, signed)
    ensures var r, rest := Piece(s, room, signed), AfterPiece(s, room, signed);
            rest == s[|r|..] && Clean(rest, signed) && (CutShort(r, room) ==> rest == [])
  {
    var r := Piece(s, room, signed);
    if CutShort(r, room) && |r| < |s| {
      CutShortAtEof(s, room, signed);
    }
  }

  predicate GoodPiece(r: Text, room: nat) {
    0 < |r| <= room && forall i :: 0 <= i < |r| - 1 ==> r[i] != LF
  }

  // ----- the echo loop

  /** What while (io_fgets (...)) io_fputs (...) puts out. */
  function Echoed(s: Text, room: nat, signed: bool): Text
    requires room > 0
    decreases |s|
  {
    var r := Piece(s, room, signed);
    if r == [] then [] else CString(r) + Echoed(AfterPiece(s, room, signed), room, signed)
  }

  /** ... and what it leaves unread. */
  function Unread(s: Text, room: nat, signed: bool): Text
    requires room > 0
    decreases |s|
  {
    var rest := AfterPiece(s, room, signed);
    if Piece(s, room, signed) == [] then rest else Unread(rest, room, signed)
  }

  lemma {:induction false} EchoedIsText(s: Text, room: nat, signed: bool)
    requires room > 0
    ensures NUL !in Echoed(s, room, signed) && Clean(Echoed(s, room, signed), signed)
    decreases |s|
  {
    var r := Piece(s, room, signed);
    if r != [] {
      PieceIsClean(s, room, signed);
      EchoedIsText(AfterPiece(s, room, signed), room, signed);
    }
  }

  lemma {:induction false} TextIsEchoed(s: Text, room: nat, signed: bool)
    requires room > 0 && NUL !in s && Clean(s, signed)
    ensures Echoed(s, room, signed) == s && Unread(s, room, signed) == []
    decreases |s|
  {
    CleanRest(s, room, signed);
    assert s != [] ==> s[0] in s;
    var r, rest := Piece(s, room, signed), AfterPiece(s, room, signed);
    if r != [] {
      assert NUL !in r && NUL !in rest && r + rest == s;
      TextIsEchoed(rest, room, signed);
    }
  }

  function CStrings(ps: seq<Text>): seq<Text> {
    if ps == [] then [] else [CString(ps[0])] + CStrings(ps[1..])
  }

  /** In any case it is the lines, each as far as its first NUL. */
  lemma {:induction false} EchoIsTheLines(s: Text, room: nat, signed: bool)
    requires room > 0
    ensures Echoed(s, room, signed) == Concat(CStrings(Pieces(s, room, signed)))
    decreases |s|
  {
    var r := Piece(s, room, signed);
    if r != [] {
      var ps := Pieces(AfterPiece(s, room, signed), room, signed);
      EchoIsTheLines(AfterPiece(s, room, signed), room, signed);
      assert ([r] + ps)[1..] == ps;
      ConcatCons(CString(r), CStrings(ps));
    }
  }

  /** `u` is the end of `s`, right behind a byte that looks like end of file, or nothing. */
  predicate BehindClash(s: Text, u: Text, signed: bool) {
    |u| <= |s| && s[|s| - |u|..] == u && (u != [] ==> |u| < |s| && LooksLikeEof(s[|s| - |u| - 1], signed))
  }

  lemma StillBehindClash(s: Text, k: nat, u: Text, signed: bool)
    requires k <= |s| && BehindClash(s[k..], u, signed)
    ensures BehindClash(s, u, signed)
  {
    var n := |s| - |u|;
    assert s[k..][n - k..] == s[n..];
    assert u != [] ==> s[k..][n - k - 1] == s[n - 1];
  }

  lemma AfterPieceIsSuffix(s: Text, room: nat, signed: bool) returns (k: nat)
    ensures k <= |s| && AfterPiece(s, room, signed) == s[k..]
    ensures room > 0 && Piece(s, room, signed) == [] ==> BehindClash(s, s[k..], signed)
  {
    var r := Piece(s, room, signed);
    k := if CutShort(r, room) && |r| < |s| then |r| + 1 else |r|;
  }

  /** And what is left unread is behind a byte that was taken for end of file. */
  lemma {:induction false} UnreadIsBehindTheClash(s: Text, room: nat, signed: bool)
    requires room > 0
    ensures BehindClash(s, Unread(s, room, signed), signed)
    decreases |s|
  {
    var k := AfterPieceIsSuffix(s, room, signed);
    if Piece(s, room, signed) != [] {
      UnreadIsBehindTheClash(AfterPiece(s, room, signed), room, signed);
      StillBehindClash(s, k, Unread(s, room, signed), signed);
    }
  }

  /** The echo is faithful exactly for text: no NUL and no clashing byte. */
  lemma EchoIsFaithfulIffText(s: Text, room: nat, signed: bool)
    requires room > 0
    ensures Echoed(s, room, signed) == s <==> NUL !in s && Clean(s, signed)
  {
    EchoedIsText(s, room, signed);
    if NUL !in s && Clean(s, signed) {
      TextIsEchoed(s, room, signed);
    }
  }

  // ----- io_copy

  /** How much io_copy is to move of a stream of `available` bytes. */
  function Want(len: int, available: nat): nat
    requires len >= -1
  {
    if len == -1 || len > available then available else len
  }

  lemma WantIsTheLesser(len: int, available: nat)
    requires len >= -1
    ensures len == -1 ==> Want(len, available) == available
    ensures len >= 0 ==> Want(len, available) <= len && Want(len, available) <= available
    ensures len >= 0 ==> Want(len, available) == len || Want(len, available) == available
  {
  }

  /** At most one byte gets lost: one that was taken for end of file. */
  predicate Droppable(d: Text, signed: bool) {
    d == [] || (|d| == 1 && LooksLikeEof(d[0], signed))
  }

  /** The outcome of a copy: `moved` went over, `dropped` got lost, `rest` is left. */
  ghost predicate Copied(input: Text, want: nat, moved: Text, dropped: Text, rest: Text, signed: bool) {
    && moved + dropped + rest == input && |moved| <= want && Droppable(dropped, signed)
    && (|moved| == want <==> dropped == [])
  }

  predicate CleanFrom(input: Text, low: nat, high: nat, signed: bool)
    requires high <= |input|
  {
    forall i :: low <= i < high ==> !LooksLikeEof(input[i], signed)
  }

  /** `count` bytes into a copy that began with `buffered` bytes in the buffer, which now holds `inlen`: the
      buffered ones go first, and the next one must not look like end of file. */
  predicate PastBuffer(input: Text, buffered: nat, count: nat, inlen: nat, signed: bool) {
    && (count <= buffered ==> inlen == buffered - count)
    && (count > buffered && buffered < |input| ==> !LooksLikeEof(input[buffered], signed))
  }

  lemma FurtherPast(input: Text, buffered: nat, moved: Text, rest: Text, inlen: nat, n: nat, inlen': nat, signed: bool)
    requires PastBuffer(input, buffered, |moved|, inlen, signed) && moved + rest == input && n > 0
    requires inlen > 0 ==> n <= inlen && inlen' == inlen - n
    requires inlen == 0 ==> rest != [] && !LooksLikeEof(rest[0], signed)
    ensures PastBuffer(input, buffered, |moved| + n, inlen', signed)
  {
    assert rest != [] ==> input[|moved|] == rest[0];
  }

  /** A copy that lost a byte stopped at one among those it was to move, behind those that were buffered. */
  lemma DropsOnlyWanted(input: Text, want: nat, buffered: nat, moved: Text, dropped: Text, rest: Text, signed: bool)
    requires Copied(input, want, moved, dropped, rest, signed) && want <= |input|
    requires dropped != [] ==> |moved| >= buffered
    ensures CleanFrom(input, buffered, want, signed) ==> dropped == []
  {
    if dropped != [] {
      assert input[|moved|] == dropped[0];
    }
  }

  /** The loop of io_copy: `moved` has gone over, `rest` is left, and `left` of `len` are still wanted. */
  ghost predicate Copying(input: Text, len: int, left: int, moved: Text, rest: Text, buffered: nat, inlen: nat,
                          signed: bool) {
    && len >= -1 && left >= -1 && (left == -1 <==> len == -1) && (len >= 0 ==> left + |moved| == len)
    && moved + rest == input && PastBuffer(input, buffered, |moved|, inlen, signed)
  }

  lemma CopyGoesOn(input: Text, len: int, left: int, moved: Text, rest: Text, buffered: nat, inlen: nat, signed: bool,
                   chunk: Text, rest': Text, inlen': nat)
    requires Copying(input, len, left, moved, rest, buffered, inlen, signed) && left != 0
    requires chunk + rest' == rest && chunk != [] && (left >= 0 ==> |chunk| <= left)
    requires inlen > 0 ==> |chunk| <= inlen && inlen' == inlen - |chunk|
    requires inlen == 0 ==> !LooksLikeEof(rest[0], signed)
    ensures var left' := if left > 0 then left - |chunk| else left;
            Copying(input, len, left', moved + chunk, rest', buffered, inlen', signed)
  {
    FurtherPast(input, buffered, moved, rest, inlen, |chunk|, inlen', signed);
    Regroup(moved, chunk, rest');
  }

  /** It stops with enough moved, or with nothing in the buffer and none to be had. */
  lemma CopyStops(input: Text, len: int, left: int, moved: Text, rest: Text, buffered: nat, inlen: nat, signed: bool,
                  dropped: Text, rest': Text)
    requires Copying(input, len, left, moved, rest, buffered, inlen, signed)
    requires dropped + rest' == rest && Droppable(dropped, signed)
    requires left == 0 ==> dropped == []
    requires left != 0 ==> inlen == 0 && (dropped == [] ==> rest' == [])
    ensures Copied(input, Want(len, |input|), moved, dropped, rest', signed)
    ensures dropped != [] ==> |moved| >= buffered
    ensures buffered < Want(len, |input|) && LooksLikeEof(input[buffered], signed) ==> |moved| == buffered
  {
    Regroup(moved, dropped, rest');
  }
}
