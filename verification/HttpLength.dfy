/** The number that src/pthr_http.c reads from a Content-Length header with sscanf ("%d"). */
module HttpLengths {
  import opened Common
  import opened IoStreams

  const PLUS: Byte := 43
  const MINUS: Byte := 45

  /** isspace in the C locale. */
  predicate IsSpace(b: Byte) {
    b == 32 || 9 <= b <= 13
  }

  predicate IsDigit(b: Byte) {
    48 <= b <= 57
  }

  function SkipSpace(s: Text): Text {
    if s != [] && IsSpace(s[0]) then SkipSpace(s[1..]) else s
  }

  function DigitValue(b: Byte): (n: nat)
    requires IsDigit(b)
    ensures n < 10
  {
    var v: int := b;
    v - 48
  }

  /** The leading digits. */
  function Digits(s: Text): (d: Text)
    ensures d <= s && (forall i :: 0 <= i < |d| ==> IsDigit(d[i])) && (|d| < |s| ==> !IsDigit(s[|d|]))
  {
    if s == [] || !IsDigit(s[0]) then [] else [s[0]] + Digits(s[1..])
  }

  function DecValue(d: Text): nat
    requires forall i :: 0 <= i < |d| ==> IsDigit(d[i])
  {
    if d == [] then 0 else 10 * DecValue(d[..|d| - 1]) + DigitValue(d[|d| - 1])
  }

  /** The number that %d reads, if there is one: spaces, a sign, digits. */
  function ScanInt(s: Text): Option<int> {
    var t := SkipSpace(s);
    var signed := t != [] && (t[0] == PLUS || t[0] == MINUS);
    var d := Digits(if signed then t[1..] else t);
    if d == [] then None
    else
      var n: int := DecValue(d);
      Some(if signed && t[0] == MINUS then -n else n)
  }

  // ----- against printing

  function Decimal(n: nat): (s: Text)
    ensures |s| > 0 && forall i :: 0 <= i < |s| ==> IsDigit(s[i])
  {
    if n < 10 then [48 + n] else Decimal(n / 10) + [48 + n % 10]
  }

  lemma {:induction false} DecimalValue(n: nat)
    ensures DecValue(Decimal(n)) == n
  {
    var s := Decimal(n);
    if n >= 10 {
      DecimalValue(n / 10);
      assert s[..|s| - 1] == Decimal(n / 10);
    } else {
      assert s[..0] == [];
    }
  }

  lemma {:induction false} DigitsStop(d: Text, t: Text)
    requires (forall i :: 0 <= i < |d| ==> IsDigit(d[i])) && (t == [] || !IsDigit(t[0]))
    ensures Digits(d + t) == d
  {
    if d == [] {
      assert d + t == t;
    } else {
      assert (d + t)[1..] == d[1..] + t;
      DigitsStop(d[1..], t);
    }
  }

  lemma {:induction false} SpacesAreSkipped(w: Text, t: Text)
    requires (forall b :: b in w ==> IsSpace(b)) && t != [] && !IsSpace(t[0])
    ensures SkipSpace(w + t) == t
  {
    if w == [] {
      assert w + t == t;
    } else {
      assert w[0] in w && (w + t)[1..] == w[1..] + t;
      SpacesAreSkipped(w[1..], t);
    }
  }

  /** A printed length is read back, whatever space is in front of it and whatever follows but a digit. */
  lemma LengthReadsBack(w: Text, n: nat, t: Text)
    requires (forall b :: b in w ==> IsSpace(b)) && (t == [] || !IsDigit(t[0]))
    ensures ScanInt(w + (Decimal(n) + t)) == Some(n)
  {
    var d := Decimal(n);
    SpacesAreSkipped(w, d + t);
    DigitsStop(d, t);
    DecimalValue(n);
  }

  lemma SignedScan(sign: Byte, t: Text)
    requires sign == '-' as int || sign == '+' as int
    ensures var d := Digits(t);
            ScanInt([sign] + t) ==
              if d == [] then None else Some(if sign == '-' as int then 0 - DecValue(d) else DecValue(d))
  {
    var s := [sign] + t;
    assert s[1..] == t;
    assert SkipSpace(s) == s;
  }

  lemma DecimalScans(n: nat)
    ensures Digits(Decimal(n)) == Decimal(n) && DecValue(Digits(Decimal(n))) == n
  {
    DigitsStop(Decimal(n), []);
    assert Decimal(n) + [] == Decimal(n);
    DecimalValue(n);
  }

  /** Signs are read. */
  lemma SignsAreRead(sign: Byte, n: nat)
    requires sign == '-' as int || sign == '+' as int
    ensures ScanInt([sign] + Decimal(n)) == Some(if sign == '-' as int then 0 - n else n)
  {
    DecimalScans(n);
    SignedScan(sign, Decimal(n));
  }

  /** Without a digit behind it a sign is no number. */
  lemma SignAloneIsNoNumber(sign: Byte, s: Text)
    requires (sign == '-' as int || sign == '+' as int) && (s == [] || !IsDigit(s[0]))
    ensures ScanInt([sign] + s) == None
  {
    SignedScan(sign, s);
  }
}
