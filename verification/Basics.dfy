/** Notions that several of the models share. */
module Basics {

  datatype Option<+T> = None | Some(value: T)

  type Byte = b: nat | b < 256

  const U64_MAX: nat := 0xFFFF_FFFF_FFFF_FFFF

  /** A machine word: `usize` on the supported 64-bit targets, and `u64`. */
  type Word = n: nat | n <= U64_MAX

  lemma SubsetSize<T>(a: set<T>, b: set<T>)
    requires a <= b
    ensures |a| <= |b|
    ensures a != b ==> |a| < |b|
  {
    assert b == a + (b - a);
    if a != b {
      var x :| x in b && x !in a;
      assert b - a != {};
    }
  }
}
