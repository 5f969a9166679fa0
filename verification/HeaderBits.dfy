/** The bitmap extra_headers of src/pthr_http.c: one bit for each header the library may still have to supply
    or look for. */
module HeaderBits {
  datatype Kind = Server | Date | ContentType | Connection | ContentLength | Chunked

  function Mask(k: Kind): bv32 {
    match k
    case Server => 1
    case Date => 2
    case ContentType => 4
    case Connection => 8
    case ContentLength => 16
    case Chunked => 32
  }

  predicate Has(bits: bv32, k: Kind) {
    bits & Mask(k) != 0
  }

  const ALL: set<Kind> := {Server, Date, ContentType, Connection, ContentLength, Chunked}

  /** The bitmap stands for the set `u`. */
  ghost predicate Flags(bits: bv32, u: set<Kind>) {
    forall k {:trigger Has(bits, k)} :: k in u <==> Has(bits, k)
  }

  lemma AllFlags()
    ensures Flags(0xffff_ffff, ALL)
  {
  }

  lemma MaskClears(bits: bv32, k: Kind, j: Kind)
    ensures Has(bits & !Mask(k), j) <==> Has(bits, j) && j != k
  {
  }

  lemma FlagsClear(bits: bv32, r: bv32, k: Kind, u: set<Kind>)
    requires Flags(bits, u)
    requires forall j :: Has(r, j) <==> Has(bits, j) && j != k
    ensures Flags(r, u - {k})
  {
  }

  method ClearIf(bits: bv32, k: Kind, c: bool, ghost u: set<Kind>) returns (r: bv32)
    requires Flags(bits, u)
    ensures Flags(r, if c then u - {k} else u)
  {
    r := bits;
    if c {
      r := bits & !Mask(k);
      forall j
        ensures Has(r, j) <==> Has(bits, j) && j != k
      {
        MaskClears(bits, k, j);
      }
      FlagsClear(bits, r, k, u);
    }
  }

  method Test(bits: bv32, k: Kind, ghost u: set<Kind>) returns (r: bool)
    requires Flags(bits, u)
    ensures r <==> k in u
  {
    r := Has(bits, k);
  }

  /** The test against _HTTP_XH_LENGTH_DEFINED: both length bits still set. */
  method NoLength(bits: bv32, ghost u: set<Kind>) returns (r: bool)
    requires Flags(bits, u)
    ensures r <==> ContentLength in u && Chunked in u
  {
    LengthBits(bits);
    r := bits & 48 == 48;
  }

  lemma LengthBits(bits: bv32)
    ensures bits & 48 == 48 <==> Has(bits, ContentLength) && Has(bits, Chunked)
  {
    assert bits & 48 == 48 <==> bits & 16 != 0 && bits & 32 != 0;
  }
}
