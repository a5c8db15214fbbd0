/** Small definitions that several modules share. */
module Basics {

  datatype Option<+T> = None | Some(value: T)

  /** The largest value of an unsigned int. */
  const UINT_MAX: int := 0xffff_ffff

  /** Arithmetic on unsigned int is modulo this. */
  const WRAP: int := 0x1_0000_0000

  ghost predicate NoRepeats<T>(s: seq<T>) {
    forall i, j :: 0 <= i < j < |s| ==> s[i] != s[j]
  }

  lemma Appended<T(!new)>(s: seq<T>, x: T)
    requires NoRepeats(s) && x !in s
    ensures NoRepeats(s + [x]) && forall y {:trigger y in s + [x]} :: y in s + [x] <==> y in s || y == x
  {
  }

  lemma Prepended<T(!new)>(s: seq<T>, x: T)
    requires NoRepeats(s) && x !in s
    ensures NoRepeats([x] + s) && forall y {:trigger y in [x] + s} :: y in [x] + s <==> y in s || y == x
  {
  }
}
