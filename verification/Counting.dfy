/** Counting threads by what they are doing. */
module Counting {

  function One(b: bool): int {
    if b then 1 else 0
  }

  /** Two sets that differ at most in `t` differ in size by `t` alone. */
  lemma CountDiffers(before: set<nat>, after: set<nat>, t: nat)
    requires before - {t} == after - {t}
    ensures |after| == |before| - One(t in before) + One(t in after)
  {
    assert |before - {t}| == |before| - One(t in before);
    assert |after - {t}| == |after| - One(t in after);
  }
}
