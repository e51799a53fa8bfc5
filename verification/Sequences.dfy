/** Sequences taken apart at the end. */
module Sequences {
  lemma Snoc<T>(s: seq<T>)
    requires s != []
    ensures var n := |s| - 1;
      && s == s[..n] + [s[n]]
      && forall x :: x in s <==> x in s[..n] || x == s[n]
  {
    var n := |s| - 1;
    assert s == s[..n] + [s[n]];
  }

  lemma Whole<T>(s: seq<T>)
    ensures s[0..] == s && s[..|s|] == s
  {}
}
