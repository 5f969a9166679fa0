/** Query strings and the parameter table: src/pthr_cgi.c. */
module CgiParams {
  import opened Common
  import opened IoStreams
  import opened Cgi

  type Params = map<Text, seq<Text>>

  /** pstrcsplit: the pieces between occurrences of `c`. */
  function Split(s: Text, c: Byte): (ps: seq<Text>)
    ensures |ps| > 0
  {
    if s == [] then [[]]
    else
      var ps := Split(s[1..], c);
      if s[0] == c then [[]] + ps else [[s[0]] + ps[0]] + ps[1..]
  }

  /** strchr, as a position; the length when there is none. */
  function Find(s: Text, c: Byte): (k: nat)
    ensures k <= |s| && c !in s[..k] && (k < |s| ==> s[k] == c)
  {
    if s == [] || s[0] == c then 0
    else
      var k := 1 + Find(s[1..], c);
      assert s[..k] == [s[0]] + s[1..][..k - 1];
      k
  }

  function Insert(m: Params, name: Text, value: Text): Params {
    m[name := (if name in m then m[name] else []) + [CString(Unescape(value))]]
  }

  /** One piece of a query string: name=value, or a bare name that means name=1. */
  function InsertPiece(m: Params, piece: Text): Params {
    var k := Find(piece, EQUALS);
    if k == |piece| then Insert(m, piece, [ONE]) else Insert(m, piece[..k], piece[k + 1..])
  }

  function InsertPieces(m: Params, ps: seq<Text>): Params
    decreases |ps|
  {
    if ps == [] then m else InsertPieces(InsertPiece(m, ps[0]), ps[1..])
  }

  /** parse_qs; the query string ends at its NUL. */
  function Parse(qs: Text): Params {
    var s := CString(qs);
    if s == [] then map[] else InsertPieces(map[], Split(s, AMPERSAND))
  }

  // ----- building a query string

  /** name=value, or a bare name. */
  datatype Item = Valued(name: Text, value: Text) | Bare(name: Text)

  /** A bare name stands for the value "1". */
  function ValueOf(p: Item): Text {
    match p
    case Valued(_, value) => value
    case Bare(_) => ['1' as int]
  }

  predicate GoodName(name: Text) {
    '&' as int !in name && '=' as int !in name && NUL !in name
  }

  predicate GoodItem(p: Item) {
    GoodName(p.name) && NUL !in ValueOf(p)
  }

  function Encode(p: Item): Text {
    match p
    case Valued(name, value) => name + ['=' as int] + Escape(value)
    case Bare(name) => name
  }

  function Query(items: seq<Item>): Text {
    if items == [] then []
    else if |items| == 1 then Encode(items[0])
    else Encode(items[0]) + ['&' as int] + Query(items[1..])
  }

  /** An empty name alone is written as no query string at all. */
  predicate NoQuery(items: seq<Item>) {
    items == [Bare([])]
  }

  /** The values that `items` gives to `name`, in order. */
  function ValuesOf(items: seq<Item>, name: Text): seq<Text> {
    if items == [] then []
    else One(items[0], name) + ValuesOf(items[1..], name)
  }

  lemma {:induction false} SplitWithout(s: Text, c: Byte)
    requires c !in s
    ensures Split(s, c) == [s]
  {
    if s != [] {
      SplitWithout(s[1..], c);
      assert [s[0]] + s[1..] == s;
    }
  }

  lemma {:induction false} SplitFirst(a: Text, c: Byte, b: Text)
    requires c !in a
    ensures Split(a + [c] + b, c) == [a] + Split(b, c)
  {
    var s := a + [c] + b;
    if a == [] {
      assert s[1..] == b;
    } else {
      assert s[1..] == a[1..] + [c] + b;
      SplitFirst(a[1..], c, b);
      assert [a[0]] + a[1..] == a;
      assert ([a[1..]] + Split(b, c))[1..] == Split(b, c);
    }
  }

  lemma {:induction false} FindAfter(a: Text, c: Byte, b: Text)
    requires c !in a
    ensures Find(a + [c] + b, c) == |a|
  {
    var s := a + [c] + b;
    if a != [] {
      assert s[1..] == a[1..] + [c] + b;
      FindAfter(a[1..], c, b);
    }
  }

  lemma EscapeHasNone(s: Text, c: Byte)
    requires c == AMPERSAND || c == NUL || c == EQUALS
    ensures c !in Escape(s)
  {
    forall i | 0 <= i < |Escape(s)|
      ensures Escape(s)[i] != c
    {
      EscapedIsSafe(s, i);
    }
  }

  lemma {:induction false} FindNone(a: Text, c: Byte)
    requires c !in a
    ensures Find(a, c) == |a|
  {
    if a != [] {
      FindNone(a[1..], c);
    }
  }

  lemma ValuedRoundTrip(m: Params, name: Text, value: Text)
    requires GoodName(name) && NUL !in value
    ensures '&' as int !in name + ['=' as int] + Escape(value) && NUL !in name + ['=' as int] + Escape(value)
    ensures InsertPiece(m, name + ['=' as int] + Escape(value)) == m[name := Values(m, name) + [value]]
  {
    EscapeHasNone(value, AMPERSAND);
    EscapeHasNone(value, NUL);
    var e := name + ['=' as int] + Escape(value);
    FindAfter(name, EQUALS, Escape(value));
    assert e[..|name|] == name && e[|name| + 1..] == Escape(value);
    UnescapeInvertsEscape(value);
  }

  lemma BareRoundTrip(m: Params, name: Text)
    requires GoodName(name)
    ensures InsertPiece(m, name) == m[name := Values(m, name) + [['1' as int]]]
  {
    FindNone(name, EQUALS);
    assert ONE == '1' as int;
    var one: Text := [ONE];
    assert one[1..] == [];
    assert Unescape(one) == one + Unescape([]) == one;
  }

  /** One item survives the trip. */
  lemma PieceRoundTrip(m: Params, p: Item)
    requires GoodItem(p)
    ensures AMPERSAND !in Encode(p) && NUL !in Encode(p)
    ensures InsertPiece(m, Encode(p)) == m[p.name := Values(m, p.name) + [ValueOf(p)]]
  {
    match p {
      case Valued(name, value) => ValuedRoundTrip(m, name, value);
      case Bare(name) => BareRoundTrip(m, name);
    }
  }

  lemma {:induction false} QuerySplits(items: seq<Item>)
    requires items != [] && forall p :: p in items ==> GoodItem(p)
    ensures (Query(items) == [] <==> NoQuery(items)) && NUL !in Query(items)
    ensures Split(Query(items), AMPERSAND) == Encodings(items)
  {
    PieceRoundTrip(map[], items[0]);
    if |items| == 1 {
      SplitWithout(Encode(items[0]), AMPERSAND);
      assert items[1..] == [];
    } else {
      QuerySplits(items[1..]);
      SplitFirst(Encode(items[0]), AMPERSAND, Query(items[1..]));
    }
  }

  function Encodings(items: seq<Item>): seq<Text> {
    if items == [] then [] else [Encode(items[0])] + Encodings(items[1..])
  }

  function Values(m: Params, name: Text): seq<Text> {
    if name in m then m[name] else []
  }

  function Add(m: Params, p: Item): Params {
    m[p.name := Values(m, p.name) + [ValueOf(p)]]
  }

  function AddAll(m: Params, items: seq<Item>): Params
    decreases |items|
  {
    if items == [] then m else AddAll(Add(m, items[0]), items[1..])
  }

  lemma {:induction false} PiecesAdd(m: Params, items: seq<Item>)
    requires forall p :: p in items ==> GoodItem(p)
    ensures InsertPieces(m, Encodings(items)) == AddAll(m, items)
    decreases |items|
  {
    if items != [] {
      PieceRoundTrip(m, items[0]);
      assert Encodings(items)[1..] == Encodings(items[1..]);
      PiecesAdd(Add(m, items[0]), items[1..]);
    }
  }

  /** Added in order, items give each name their values, in order. */
  lemma {:induction false} AddAllCollects(m: Params, items: seq<Item>, name: Text)
    ensures name in AddAll(m, items) <==> name in m || ValuesOf(items, name) != []
    ensures Values(AddAll(m, items), name) == Values(m, name) + ValuesOf(items, name)
    decreases |items|
  {
    if items != [] {
      var p, rest := items[0], items[1..];
      AddAllCollects(Add(m, p), rest, name);
      AddGivesOne(m, p, name);
      Regroup(Values(m, name), One(p, name), ValuesOf(rest, name));
    }
  }

  function One(p: Item, name: Text): seq<Text> {
    if p.name == name then [ValueOf(p)] else []
  }

  lemma AddGivesOne(m: Params, p: Item, name: Text)
    ensures name in Add(m, p) <==> name in m || One(p, name) != []
    ensures Values(Add(m, p), name) == Values(m, name) + One(p, name)
  {
  }

  /** Parsing what was joined gives every name its values, in order, and nothing else. */
  lemma QueryRoundTrip(items: seq<Item>, name: Text)
    requires (forall p :: p in items ==> GoodItem(p)) && !NoQuery(items)
    ensures name in Parse(Query(items)) <==> ValuesOf(items, name) != []
    ensures Values(Parse(Query(items)), name) == ValuesOf(items, name)
  {
    if items != [] {
      QuerySplits(items);
      PiecesAdd(map[], items);
      AddAllCollects(map[], items, name);
    }
  }

  lemma {:induction false} PiecesHaveNone(s: Text, c: Byte, k: nat)
    requires k < |Split(s, c)|
    ensures c !in Split(s, c)[k]
  {
    if s != [] {
      var ps := Split(s[1..], c);
      if s[0] == c {
        if k > 0 {
          assert Split(s, c)[k] == ps[k - 1];
          PiecesHaveNone(s[1..], c, k - 1);
        }
      } else {
        PiecesHaveNone(s[1..], c, k);
      }
    }
  }

  lemma {:induction false} PiecesAreParts(s: Text, c: Byte, k: nat, x: Byte)
    requires k < |Split(s, c)| && x !in s
    ensures x !in Split(s, c)[k]
  {
    if s != [] {
      var ps := Split(s[1..], c);
      if s[0] == c {
        if k > 0 {
          assert Split(s, c)[k] == ps[k - 1];
          PiecesAreParts(s[1..], c, k - 1, x);
        }
      } else {
        PiecesAreParts(s[1..], c, k, x);
      }
    }
  }

  lemma {:induction false} InsertedNames(m: Params, ps: seq<Text>, name: Text)
    requires forall k :: 0 <= k < |ps| ==> AMPERSAND !in ps[k] && NUL !in ps[k]
    requires name in m ==> GoodName(name)
    ensures name in InsertPieces(m, ps) ==> GoodName(name)
    decreases |ps|
  {
    if ps != [] {
      var k := Find(ps[0], EQUALS);
      assert ps[0][..k] <= ps[0];
      assert k == |ps[0]| ==> ps[0][..k] == ps[0];
      InsertedNames(InsertPiece(m, ps[0]), ps[1..], name);
    }
  }

  /** Whatever the query string, no parsed name holds a separator or a NUL. */
  lemma ParsedNamesAreGood(qs: Text, name: Text)
    ensures name in Parse(qs) ==> GoodName(name)
  {
    var s := CString(qs);
    var ps := Split(s, AMPERSAND);
    forall k | 0 <= k < |ps|
      ensures AMPERSAND !in ps[k] && NUL !in ps[k]
    {
      PiecesHaveNone(s, AMPERSAND, k);
      PiecesAreParts(s, AMPERSAND, k, NUL);
    }
    InsertedNames(map[], ps, name);
  }

  predicate CleanValues(m: Params) {
    forall name :: name in m ==> forall v :: v in m[name] ==> NUL !in v
  }

  lemma {:induction false} InsertedValues(m: Params, ps: seq<Text>)
    requires CleanValues(m)
    ensures CleanValues(InsertPieces(m, ps))
    decreases |ps|
  {
    if ps != [] {
      InsertedValues(InsertPiece(m, ps[0]), ps[1..]);
    }
  }

  lemma {:induction false} NamedItemHasValue(items: seq<Item>, p: Item)
    requires p in items
    ensures ValueOf(p) in ValuesOf(items, p.name)
  {
    if items[0] != p {
      NamedItemHasValue(items[1..], p);
    }
  }

  /** So the trip works for all names exactly if no name holds a separator or a NUL, no value holds a NUL, and
      it is not an empty name alone. */
  lemma QueryRoundTripsExactly(items: seq<Item>)
    ensures (forall name :: Values(Parse(Query(items)), name) == ValuesOf(items, name)) <==>
              (forall p :: p in items ==> GoodItem(p)) && !NoQuery(items)
  {
    if NoQuery(items) {
      NamedItemHasValue(items, Bare([]));
      assert Values(Parse(Query(items)), []) == [];
    } else if forall p :: p in items ==> GoodItem(p) {
      forall name
        ensures Values(Parse(Query(items)), name) == ValuesOf(items, name)
      {
        QueryRoundTrip(items, name);
      }
    } else {
      BadItemIsLost(items);
    }
  }

  lemma BadItemIsLost(items: seq<Item>)
    requires exists p :: p in items && !GoodItem(p)
    ensures exists name :: Values(Parse(Query(items)), name) != ValuesOf(items, name)
  {
    var p :| p in items && !GoodItem(p);
    NamedItemHasValue(items, p);
    ParsedNamesAreGood(Query(items), p.name);
    InsertedValues(map[], Split(CString(Query(items)), AMPERSAND));
    assert ValueOf(p) !in Values(Parse(Query(items)), p.name);
    assert Values(Parse(Query(items)), p.name) != ValuesOf(items, p.name);
  }

  // ----- the table

  /** The part of a table that copying the keys `ks` reproduces: a name without values is dropped. */
  ghost function Kept(m: Params, ks: seq<Text>): Params {
    map name | name in m && name in ks && m[name] != [] :: m[name]
  }

  lemma KeptSnoc(m: Params, ks: seq<Text>, k: Text)
    requires k in m && k !in ks
    ensures k !in Kept(m, ks)
    ensures Kept(m, ks + [k]) == if m[k] == [] then Kept(m, ks) else Kept(m, ks)[k := m[k]]
  {
    assert forall name :: name in ks + [k] <==> name in ks || name == k;
  }

  class CgiTable {
    var params: Params

    /** Every name that is there has a value. */
    ghost predicate Valid()
      reads this
    {
      forall name :: name in params ==> params[name] != []
    }

    constructor ()
      ensures params == map[]
    {
      params := map[];
    }

    /** insert_param */
    method InsertParam(name: Text, value: Text)
      requires Valid()
      modifies this
      ensures Valid() && params == Insert(old(params), name, value)
    {
      var v: seq<Text> := [];
      if name in params {
        v := params[name];
      }
      var buf := CgiUnescape(value);
      var s := CString(buf[..]);
      params := params[name := v + [s]];
    }

    /** parse_qs */
    method ParseQs(qs: Text)
      requires Valid() && params == map[]
      modifies this
      ensures Valid() && params == Parse(qs)
    {
      var s := CString(qs);
      if s != [] {
        var v := Split(s, AMPERSAND);
        var i := 0;
        while i < |v|
          invariant 0 <= i <= |v| && Valid()
          invariant InsertPieces(params, v[i..]) == Parse(qs)
        {
          assert v[i..][1..] == v[i + 1..];
          ParsePiece(v[i]);
          i := i + 1;
        }
        assert v[i..] == [];
      }
    }

    /** One turn of the loop: name=value, or a bare name. */
    method ParsePiece(piece: Text)
      requires Valid()
      modifies this
      ensures Valid() && params == InsertPiece(old(params), piece)
    {
      var k := Find(piece, EQUALS);
      if k == |piece| {
        InsertParam(piece, [ONE]);
      } else {
        InsertParam(piece[..k], piece[k + 1..]);
      }
    }

    /** copy_cgi, with the keys in whatever order the hash lists them. */
    method Copy(keys: seq<Text>) returns (c: CgiTable)
      requires Distinct(keys) && forall name :: name in keys <==> name in params
      ensures fresh(c) && c.Valid()
      ensures c.params == map name | name in params && params[name] != [] :: params[name]
      ensures Valid() ==> c.params == params
    {
      c := new CgiTable();
      var i := 0;
      while i < |keys|
        modifies c
        invariant 0 <= i <= |keys| && c.Valid()
        invariant c.params == Kept(params, keys[..i])
      {
        assert keys[i] !in keys[..i] && keys[i] in keys;
        KeptSnoc(params, keys[..i], keys[i]);
        c.CopyValues(keys[i], params[keys[i]]);
        assert keys[..i + 1] == keys[..i] + [keys[i]];
        i := i + 1;
      }
      assert keys[..i] == keys;
    }

    /** The inner loop of copy_cgi. */
    method CopyValues(key: Text, values: seq<Text>)
      requires Valid() && key !in params
      modifies this
      ensures Valid() && params == if values == [] then old(params) else old(params)[key := values]
    {
      var j := 0;
      while j < |values|
        invariant 0 <= j <= |values| && Valid()
        invariant params == if j == 0 then old(params) else old(params)[key := values[..j]]
      {
        var v: seq<Text> := [];
        if key in params {
          v := params[key];
        }
        assert v == values[..j] && values[..j + 1] == v + [values[j]];
        params := params[key := v + [values[j]]];
        j := j + 1;
      }
      assert values[..j] == values;
    }
  }
}
