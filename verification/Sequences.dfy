/** Taking sequences apart at their last element. */
module Sequences {

  lemma LastApart<T>(a: seq<T>, b: seq<T>)
    requires b != []
    ensures a + b == a + b[..|b| - 1] + [b[|b| - 1]]
    ensures b == b[..|b| - 1] + [b[|b| - 1]]
  {
  }

  lemma WithoutLast<T>(a: seq<T>, x: T)
    ensures (a + [x])[..|a|] == a && |a + [x]| == |a| + 1 && (a + [x])[|a|] == x
  {
  }

  lemma AtApart<T>(s: seq<T>, k: nat)
    requires k < |s|
    ensures s == s[..k] + [s[k]] + s[k + 1..]
  {
  }
}
