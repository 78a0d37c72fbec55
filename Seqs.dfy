/** Small facts about sequence concatenation and prefixes, stated once for any element type. */
module Seqs {

  /** `a` is a prefix of `b`. */
  ghost predicate IsPrefix<T>(a: seq<T>, b: seq<T>) {
    |a| <= |b| && a == b[..|a|]
  }

  lemma Assoc<T>(a: seq<T>, b: seq<T>, c: seq<T>)
    ensures a + (b + c) == (a + b) + c
  {
  }

  /** `h + c` is a prefix of `h + k` when `c` is a prefix of `k`. */
  lemma PrefixAfter<T>(h: seq<T>, c: seq<T>, k: seq<T>)
    requires IsPrefix(c, k)
    ensures IsPrefix(h + c, h + k)
  {
    var hk := h + k;
    assert forall i :: 0 <= i < |h + c| ==> (h + c)[i] == hk[i];
  }

  /** `h` is a prefix of `h + k`. */
  lemma PrefixOfAppend<T>(h: seq<T>, k: seq<T>)
    ensures IsPrefix(h, h + k)
  {
    assert (h + k)[..|h|] == h;
  }
}
