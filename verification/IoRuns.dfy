/** Any sequence of operations on one io_handle, against two plain byte streams. */
module IoRuns {
  import opened Common
  import opened IoStreams
  import opened IoHandles

  datatype Op =
    | Getc
    | Unget(c: int)
    | Read(n: nat)
    | Putc(c: int)
    | Puts(s: Text)
    | Write(s: Text)
    | FlushNow
    | SetMode(mode: Mode)

  datatype Result = Char(c: int) | Pushed(done: bool) | Data(d: Text) | Nothing

  datatype Streams = Streams(input: Text, output: Text)

  /** The result a plain stream would give.  Only whether a push-back finds room is left open. */
  predicate Fits(s: Streams, signed: bool, op: Op, r: Result) {
    match op
    case Getc => r == Char(if s.input == [] then -1 else AsChar(s.input[0], signed))
    case Unget(_) => r.Pushed?
    case Read(n) => r.Data? && r.d == s.input[..if n < |s.input| then n else |s.input|]
    case _ => r == Nothing
  }

  function Next(s: Streams, op: Op, r: Result): Streams {
    match op
    case Getc => s.(input := if s.input == [] then [] else s.input[1..])
    case Unget(c) => if r.Pushed? && r.done then s.(input := [Stored(c)] + s.input) else s
    case Read(n) => s.(input := s.input[if n < |s.input| then n else |s.input|..])
    case Putc(c) => s.(output := s.output + [Stored(c)])
    case Puts(t) => s.(output := s.output + CString(t))
    case Write(t) => s.(output := s.output + t)
    case FlushNow => s
    case SetMode(_) => s
  }

  ghost predicate Explained(s: Streams, signed: bool, ops: seq<Op>, rs: seq<Result>)
    decreases |ops|
  {
    && |ops| == |rs|
    && (ops != [] ==> Fits(s, signed, ops[0], rs[0]) && Explained(Next(s, ops[0], rs[0]), signed, ops[1..], rs[1..]))
  }

  ghost function Final(s: Streams, ops: seq<Op>, rs: seq<Result>): Streams
    requires |ops| == |rs|
    decreases |ops|
  {
    if ops == [] then s else Final(Next(s, ops[0], rs[0]), ops[1..], rs[1..])
  }

  lemma {:induction false} ExplainOne(s: Streams, signed: bool, ops: seq<Op>, rs: seq<Result>, op: Op, r: Result)
    requires Explained(s, signed, ops, rs) && Fits(Final(s, ops, rs), signed, op, r)
    ensures Explained(s, signed, ops + [op], rs + [r])
    ensures Final(s, ops + [op], rs + [r]) == Next(Final(s, ops, rs), op, r)
    decreases |ops|
  {
    if ops == [] {
      assert ([] + [op])[1..] == [] && ([] + [r])[1..] == [];
      assert (ops + [op]) == [op] && (rs + [r]) == [r];
      assert Explained(Next(s, op, r), signed, [], []);
    } else {
      assert (ops + [op])[1..] == ops[1..] + [op] && (rs + [r])[1..] == rs[1..] + [r];
      ExplainOne(Next(s, ops[0], rs[0]), signed, ops[1..], rs[1..], op, r);
    }
  }

  /** One operation. */
  method Perform(io: IoHandle, op: Op) returns (r: Result, ok: bool)
    requires io.Valid()
    modifies io, io.inbuf, io.outbuf
    ensures ok ==> io.Valid() && Fits(old(Streams(io.Input(), io.Output())), io.signedChar, op, r)
    ensures ok ==> Streams(io.Input(), io.Output()) == Next(old(Streams(io.Input(), io.Output())), op, r)
  {
    r, ok := Nothing, true;
    match op {
      case Getc =>
        var c;
        c, ok := io.Fgetc();
        r := Char(c);
      case Unget(c) =>
        var room := io.inpos > 0;
        var _ := io.Ungetc(c);
        r := Pushed(room);
      case Read(n) =>
        ghost var input := io.Input();
        var d;
        d, ok := io.Fread(n);
        r := Data(d);
        assert ok ==> input[..|d|] == d && input[|d|..] == io.Input();
      case Putc(c) => ok := io.Fputc(c);
      case Puts(s) => ok := io.Fputs(s);
      case Write(s) => ok := io.Fwrite(s);
      case FlushNow => ok := io.Fflush();
      case SetMode(m) => io.SetBufMode(m);
    }
  }

  /** Every run without an error: the results are those of the plain streams, and what is on the socket
      followed by what is buffered is everything that was put. */
  method Run(io: IoHandle, ops: seq<Op>) returns (rs: seq<Result>, ok: bool)
    requires io.Valid()
    modifies io, io.inbuf, io.outbuf
    ensures ok ==> io.Valid() && |rs| == |ops|
    ensures ok ==> Explained(old(Streams(io.Input(), io.Output())), io.signedChar, ops, rs)
    ensures ok ==> Streams(io.Input(), io.Output()) == Final(old(Streams(io.Input(), io.Output())), ops, rs)
  {
    rs, ok := [], true;
    var i := 0;
    while i < |ops|
      invariant i == |rs| <= |ops| && io.Valid()
      invariant Explained(old(Streams(io.Input(), io.Output())), io.signedChar, ops[..i], rs)
      invariant Streams(io.Input(), io.Output()) == Final(old(Streams(io.Input(), io.Output())), ops[..i], rs)
    {
      var r;
      r, ok := Perform(io, ops[i]);
      if !ok {
        return;
      }
      ExplainOne(old(Streams(io.Input(), io.Output())), io.signedChar, ops[..i], rs, ops[i], r);
      assert ops[..i + 1] == ops[..i] + [ops[i]];
      rs := rs + [r];
      i := i + 1;
    }
    assert ops[..i] == ops;
  }

  // ----- nothing lost, nothing twice

  /** What the caller holds after one more operation, by the results it was given. */
  ghost function Held1(op: Op, r: Result, net: Text): Text {
    match op
    case Getc => if r.Char? && r.c != -1 then net + [Stored(r.c)] else net
    case Read(_) => if r.Data? then net + r.d else net
    case Unget(_) => if r.Pushed? && r.done && net != [] then net[..|net| - 1] else net
    case _ => net
  }

  ghost function Held(ops: seq<Op>, rs: seq<Result>, net: Text): Text
    requires |ops| == |rs|
    decreases |ops|
  {
    if ops == [] then net else Held(ops[1..], rs[1..], Held1(ops[0], rs[0], net))
  }

  predicate HonestOp(op: Op, r: Result, net: Text) {
    op.Unget? && r.Pushed? && r.done ==> net != [] && net[|net| - 1] == Stored(op.c)
  }

  /** Each push-back returns the byte that the caller got last and has not returned yet. */
  ghost predicate Honest(ops: seq<Op>, rs: seq<Result>, net: Text)
    requires |ops| == |rs|
    decreases |ops|
  {
    ops != [] ==> HonestOp(ops[0], rs[0], net) && Honest(ops[1..], rs[1..], Held1(ops[0], rs[0], net))
  }

  /** io_fgetc took a byte that the caller could not tell from end of file. */
  predicate Mistaken(s: Streams, signed: bool, op: Op) {
    op.Getc? && s.input != [] && LooksLikeEof(s.input[0], signed)
  }

  /** How often that happened. */
  ghost function Lost(s: Streams, signed: bool, ops: seq<Op>, rs: seq<Result>): nat
    requires |ops| == |rs|
    decreases |ops|
  {
    if ops == [] then 0
    else MissedBy(s, signed, ops[0]) + Lost(Next(s, ops[0], rs[0]), signed, ops[1..], rs[1..])
  }

  function MissedBy(s: Streams, signed: bool, op: Op): nat {
    if Mistaken(s, signed, op) then 1 else 0
  }

  lemma GetcConserves(s: Streams, signed: bool, r: Result, net: Text)
    requires Fits(s, signed, Getc, r) && s.input != []
    ensures Mistaken(s, signed, Getc) ==> Held1(Getc, r, net) == net
    ensures !Mistaken(s, signed, Getc) ==> Held1(Getc, r, net) == net + [s.input[0]]
  {
    EofClash(s.input[0], signed);
  }

  lemma OneOpConserves(s: Streams, signed: bool, op: Op, r: Result, net: Text)
    requires Fits(s, signed, op, r) && HonestOp(op, r, net)
    ensures !Mistaken(s, signed, op) ==> Held1(op, r, net) + Next(s, op, r).input == net + s.input
    ensures |Held1(op, r, net)| + |Next(s, op, r).input| + MissedBy(s, signed, op) == |net| + |s.input|
  {
    match op {
      case Getc =>
        if s.input != [] {
          GetcConserves(s, signed, r, net);
          assert [s.input[0]] + s.input[1..] == s.input;
          Regroup(net, [s.input[0]], s.input[1..]);
        }
      case Read(n) =>
        assert r.d + Next(s, op, r).input == s.input;
        Regroup(net, r.d, Next(s, op, r).input);
      case Unget(c) =>
        if r.done {
          var m := |net| - 1;
          assert net == net[..m] + [Stored(c)];
          Regroup(net[..m], [Stored(c)], s.input);
        }
      case _ =>
    }
  }

  /** In any run, the bytes the caller was given and still holds, followed by what is still to come, are the
      whole input in order exactly if no byte was taken for end of file; each one that was is missing. */
  lemma {:induction false} InputIsConserved(s: Streams, signed: bool, ops: seq<Op>, rs: seq<Result>, net: Text)
    requires Explained(s, signed, ops, rs) && Honest(ops, rs, net)
    ensures |Held(ops, rs, net)| + |Final(s, ops, rs).input| + Lost(s, signed, ops, rs) == |net| + |s.input|
    ensures Held(ops, rs, net) + Final(s, ops, rs).input == net + s.input <==> Lost(s, signed, ops, rs) == 0
    decreases |ops|
  {
    if ops != [] {
      OneOpConserves(s, signed, ops[0], rs[0], net);
      InputIsConserved(Next(s, ops[0], rs[0]), signed, ops[1..], rs[1..], Held1(ops[0], rs[0], net));
    }
  }

  /** Which cannot happen on a stream without the clashing byte. */
  lemma {:induction false} CleanStreamsLoseNothing(s: Streams, signed: bool, ops: seq<Op>, rs: seq<Result>, net: Text)
    requires Explained(s, signed, ops, rs) && Honest(ops, rs, net) && Clean(net + s.input, signed)
    ensures Held(ops, rs, net) + Final(s, ops, rs).input == net + s.input
    decreases |ops|
  {
    if ops != [] {
      if s.input != [] {
        assert (net + s.input)[|net|] == s.input[0];
      }
      OneOpConserves(s, signed, ops[0], rs[0], net);
      CleanStreamsLoseNothing(Next(s, ops[0], rs[0]), signed, ops[1..], rs[1..], Held1(ops[0], rs[0], net));
    }
  }
}
