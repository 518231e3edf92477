/** Sums over sequences. */
module Sums {

  /** `f` summed over a sequence. */
  function SumBy<T>(s: seq<T>, f: T -> int): int {
    if s == [] then 0 else f(s[0]) + SumBy(s[1..], f)
  }

  lemma {:induction false} SumByAppend<T>(s: seq<T>, t: seq<T>, f: T -> int)
    ensures SumBy(s + t, f) == SumBy(s, f) + SumBy(t, f)
  {
    if s != [] {
      SumByAppend(s[1..], t, f);
      assert (s + t)[1..] == s[1..] + t;
    } else {
      assert s + t == t;
    }
  }
}
