/** Small vocabulary shared by every module. */
module Common {

  /** A thread. */
  type Tid = nat

  datatype Option<+T> = None | Some(value: T)

  /** No value occurs at two positions. */
  ghost predicate Distinct<T>(s: seq<T>) {
    forall i, j :: 0 <= i < j < |s| ==> s[i] != s[j]
  }

  lemma Regroup<T>(a: seq<T>, b: seq<T>, c: seq<T>)
    ensures a + (b + c) == (a + b) + c
  {
  }

  /** The largest value of a C `int`. */
  const INT_MAX := 0x7fff_ffff
}
