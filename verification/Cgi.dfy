/** Escaping and query strings: src/pthr_cgi.c. */
module Cgi {
  import opened Common
  import opened IoStreams
  import opened HexDigits

  const PERCENT: Byte := 37
  const AMPERSAND: Byte := 38
  const PLUS: Byte := 43
  const COMMA: Byte := 44
  const MINUS: Byte := 45
  const EQUALS: Byte := 61
  const SPACE: Byte := 32
  const ONE: Byte := 49

  /** isalnum in the C locale. */
  predicate IsAlnum(b: Byte) {
    48 <= b <= 57 || 65 <= b <= 90 || 97 <= b <= 122
  }

  /** Escaped as itself. */
  predicate IsPlain(b: Byte) {
    IsAlnum(b) || b == COMMA || b == MINUS
  }

  function EscapeByte(b: Byte): Text {
    if IsPlain(b) then [b]
    else if b == SPACE then [PLUS]
    else [PERCENT, LowerDigit(b / 16), LowerDigit(b % 16)]
  }

  function Escape(s: Text): Text {
    if s == [] then [] else EscapeByte(s[0]) + Escape(s[1..])
  }

  /** A % is an escape only in front of two hex digits. */
  predicate IsEscape(s: Text) {
    |s| >= 3 && s[0] == PERCENT && HexToInt(s[1]) >= 0 && HexToInt(s[2]) >= 0
  }

  function Unescape(s: Text): Text
    decreases |s|
  {
    if s == [] then []
    else if IsEscape(s) then [Stored(HexToInt(s[1]) * 16 + HexToInt(s[2]))] + Unescape(s[3..])
    else [if s[0] == PLUS then SPACE else s[0]] + Unescape(s[1..])
  }

  /** Unescaping undoes escaping, byte for byte. */
  lemma {:induction false} UnescapeInvertsEscape(s: Text)
    ensures Unescape(Escape(s)) == s
  {
    if s != [] {
      var b, rest := s[0], s[1..];
      UnescapeInvertsEscape(rest);
      var e := EscapeByte(b) + Escape(rest);
      if IsPlain(b) || b == SPACE {
        assert e[1..] == Escape(rest);
      } else {
        assert e[3..] == Escape(rest) && IsEscape(e);
      }
    }
  }

  /** Escaped text has no separator, no NUL, and nothing above ASCII. */
  lemma {:induction false} EscapedIsSafe(s: Text, i: nat)
    requires i < |Escape(s)|
    ensures IsPlain(Escape(s)[i]) || Escape(s)[i] == PLUS || Escape(s)[i] == PERCENT
  {
    var e := EscapeByte(s[0]);
    if i >= |e| {
      EscapedIsSafe(s[1..], i - |e|);
    }
  }

  const HEXDIGITS := "0123456789abcdef"

  predicate Between(b: Byte, low: char, high: char) {
    low as int <= b <= high as int
  }

  predicate WrittenAsItself(b: Byte) {
    Between(b, 'A', 'Z') || Between(b, 'a', 'z') || Between(b, '0', '9') || b == ',' as int || b == '-' as int
  }

  /** How each byte is written: letters, digits, comma and minus as themselves, a space as a plus, the rest
      as a percent and two digits. */
  lemma EscapesByteByByte(b: Byte)
    ensures WrittenAsItself(b) ==> Escape([b]) == [b]
    ensures b == ' ' as int ==> Escape([b]) == ['+' as int]
    ensures !WrittenAsItself(b) && b != ' ' as int ==>
              Escape([b]) == ['%' as int, HEXDIGITS[b / 16] as int, HEXDIGITS[b % 16] as int]
  {
    assert [b][1..] == [];
    DigitsAreText(b / 16);
    DigitsAreText(b % 16);
  }

  lemma DigitsAreText(n: int)
    requires 0 <= n < 16
    ensures LowerDigit(n) == HEXDIGITS[n] as int
  {
  }

  lemma {:induction false} EscapeAppend(a: Text, b: Text)
    ensures Escape(a + b) == Escape(a) + Escape(b)
  {
    if a == [] {
      assert a + b == b;
    } else {
      assert (a + b)[1..] == a[1..] + b;
      EscapeAppend(a[1..], b);
      Regroup(EscapeByte(a[0]), Escape(a[1..]), Escape(b));
    }
  }

  /** Unescaping text that was not escaped: what is no escape and no plus stays as it is, and digits of either
      case are read. */
  lemma UnescapesByteByByte(b: Byte, x: Byte, y: Byte, t: Text)
    ensures b != '%' as int && b != '+' as int ==> Unescape([b] + t) == [b] + Unescape(t)
    ensures Unescape(['+' as int] + t) == [' ' as int] + Unescape(t)
    ensures HexToInt(x) >= 0 && HexToInt(y) >= 0 ==>
              Unescape(['%' as int, x, y] + t) == [16 * HexToInt(x) + HexToInt(y)] + Unescape(t)
    ensures HexToInt(x) < 0 ==> Unescape(['%' as int, x] + t) == ['%' as int] + Unescape([x] + t)
    ensures HexToInt(y) < 0 ==> Unescape(['%' as int, x, y] + t) == ['%' as int] + Unescape([x, y] + t)
    ensures Unescape(['%' as int]) == ['%' as int] && Unescape(['%' as int, x]) == ['%' as int] + Unescape([x])
  {
    assert ([b] + t)[1..] == t && (['+' as int] + t)[1..] == t;
    assert (['%' as int, x, y] + t)[3..] == t && (['%' as int, x, y] + t)[1..] == [x, y] + t;
    assert (['%' as int, x] + t)[1..] == [x] + t;
    assert ['%' as int][1..] == [] && ['%' as int, x][1..] == [x];
  }

  // ----- the loops

  function EscapedLength(s: Text): nat {
    if s == [] then 0 else EscapedLength(s[..|s| - 1]) + |EscapeByte(s[|s| - 1])|
  }

  lemma {:induction false} EscapeSnoc(s: Text, b: Byte)
    ensures Escape(s + [b]) == Escape(s) + EscapeByte(b)
  {
    if s == [] {
      assert s + [b] == [b];
      assert [b][1..] == [];
    } else {
      assert (s + [b])[1..] == s[1..] + [b];
      EscapeSnoc(s[1..], b);
    }
  }

  lemma {:induction false} EscapedLengthIsExact(s: Text)
    ensures EscapedLength(s) == |Escape(s)|
  {
    if s != [] {
      var n := |s| - 1;
      EscapedLengthIsExact(s[..n]);
      EscapeSnoc(s[..n], s[n]);
      assert s[..n] + [s[n]] == s;
    }
  }

  /** cgi_escape: measure, allocate, fill.  The allocation is exactly used up by the text and its NUL. */
  method CgiEscape(str: Text) returns (buf: array<Byte>)
    requires NUL !in str
    ensures fresh(buf) && buf.Length == |Escape(str)| + 1
    ensures buf[..] == Escape(str) + [NUL]
    ensures CString(buf[..]) == Escape(str)
  {
    var newLen := 0;
    for i := 0 to |str|
      invariant newLen == EscapedLength(str[..i])
    {
      assert str[..i + 1][..i] == str[..i];
      if IsAlnum(str[i]) || str[i] == COMMA || str[i] == MINUS || str[i] == SPACE {
        newLen := newLen + 1;
      } else {
        newLen := newLen + 3;
      }
    }
    assert str[..|str|] == str;
    EscapedLengthIsExact(str);
    buf := new Byte[newLen + 1];
    var j := Fill(str, buf);
    buf[j] := NUL;
    assert buf[..] == buf[..j] + [NUL];
    EscapeIsCString(str);
  }

  lemma EscapeIsCString(s: Text)
    ensures CString(Escape(s) + [NUL]) == Escape(s)
  {
    var e := Escape(s);
    assert NUL !in e by {
      forall i | 0 <= i < |e|
        ensures e[i] != NUL
      {
        EscapedIsSafe(s, i);
      }
    }
    CStringAt(e);
  }

  lemma {:induction false} CStringAt(e: Text)
    requires NUL !in e
    ensures CString(e + [NUL]) == e
  {
    if e != [] {
      assert (e + [NUL])[1..] == e[1..] + [NUL];
      CStringAt(e[1..]);
    }
  }

  /** The second loop of cgi_escape. */
  method Fill(str: Text, buf: array<Byte>) returns (j: nat)
    requires buf.Length > |Escape(str)|
    modifies buf
    ensures j == |Escape(str)| && buf[..j] == Escape(str)
  {
    j := 0;
    for i := 0 to |str|
      invariant j == |Escape(str[..i])| < buf.Length && buf[..j] == Escape(str[..i])
    {
      assert str[..i + 1] == str[..i] + [str[i]];
      EscapeSnoc(str[..i], str[i]);
      EscapePrefix(str, i + 1);
      j := Put(str[i], buf, j);
    }
    assert str[..|str|] == str;
  }

  method Put(b: Byte, buf: array<Byte>, j: nat) returns (k: nat)
    requires j + |EscapeByte(b)| <= buf.Length
    modifies buf
    ensures k == j + |EscapeByte(b)| && buf[..k] == old(buf[..j]) + EscapeByte(b)
  {
    if IsPlain(b) {
      buf[j] := b;
      k := j + 1;
    } else if b == SPACE {
      buf[j] := PLUS;
      k := j + 1;
    } else {
      buf[j] := PERCENT;
      buf[j + 1] := LowerDigit(b / 16);
      buf[j + 2] := LowerDigit(b % 16);
      k := j + 3;
    }
  }

  lemma {:induction false} EscapePrefix(s: Text, i: nat)
    requires i <= |s|
    ensures |Escape(s[..i])| <= |Escape(s)|
    decreases |s| - i
  {
    if i < |s| {
      EscapePrefix(s, i + 1);
      assert s[..i + 1] == s[..i] + [s[i]];
      EscapeSnoc(s[..i], s[i]);
    } else {
      assert s[..i] == s;
    }
  }

  lemma UnescapeAt(str: Text, i: nat)
    requires i < |str|
    ensures IsEscape(str[i..]) <==>
              str[i] == PERCENT && i + 2 < |str| && HexToInt(str[i + 1]) >= 0 && HexToInt(str[i + 2]) >= 0
    ensures IsEscape(str[i..]) ==>
              Unescape(str[i..]) == [Stored(HexToInt(str[i + 1]) * 16 + HexToInt(str[i + 2]))] + Unescape(str[i + 3..])
    ensures !IsEscape(str[i..]) ==>
              Unescape(str[i..]) == [if str[i] == PLUS then SPACE else str[i]] + Unescape(str[i + 1..])
  {
    var rest := str[i..];
    assert rest[1..] == str[i + 1..];
    assert |rest| >= 3 ==> rest[3..] == str[i + 3..];
  }

  /** The loop of cgi_unescape. */
  method UnescapeInto(str: Text, buf: array<Byte>) returns (j: nat)
    requires buf.Length > |str|
    modifies buf
    ensures j <= |str| && buf[..j] == Unescape(str)
  {
    j := 0;
    var i := 0;
    assert str[0..] == str;
    while i < |str|
      invariant j <= i <= |str|
      invariant buf[..j] + Unescape(str[i..]) == Unescape(str)
    {
      ghost var done := buf[..j];
      UnescapeAt(str, i);
      var b: Byte;
      if str[i] == PERCENT && i + 2 < |str| && HexToInt(str[i + 1]) >= 0 && HexToInt(str[i + 2]) >= 0 {
        b := Stored(HexToInt(str[i + 1]) * 16 + HexToInt(str[i + 2]));
        i := i + 3;
      } else {
        b := if str[i] == PLUS then SPACE else str[i];
        i := i + 1;
      }
      buf[j] := b;
      j := j + 1;
      assert buf[..j] == done + [b];
      Regroup(done, [b], Unescape(str[i..]));
    }
    assert str[i..] == [];
  }

  /** cgi_unescape: a buffer as long as the input is enough. */
  method CgiUnescape(str: Text) returns (buf: array<Byte>)
    ensures fresh(buf) && buf.Length == |str| + 1
    ensures CString(buf[..]) == CString(Unescape(str))
  {
    buf := new Byte[|str| + 1];
    var j := UnescapeInto(str, buf);
    buf[j] := NUL;
    assert buf[..] == Unescape(str) + [NUL] + buf[j + 1..];
    CStringStops(Unescape(str), buf[j + 1..]);
  }

  lemma {:induction false} CStringStops(a: Text, b: Text)
    ensures CString(a + [NUL] + b) == CString(a)
  {
    if a == [] {
      assert a + [NUL] + b == [NUL] + b;
    } else {
      assert (a + [NUL] + b)[1..] == a[1..] + [NUL] + b;
      CStringStops(a[1..], b);
    }
  }
}
