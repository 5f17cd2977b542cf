/** Small things that several modules share. */
module Wrappers {
  datatype Option<+T> = None | Some(value: T)

  /** A subset is no larger. */
  lemma {:induction false} SubsetSize<T>(a: set<T>, b: set<T>)
    requires a <= b
    ensures |a| <= |b|
  {
    if a != {} {
      var x :| x in a;
      SubsetSize(a - {x}, b - {x});
    }
  }

  /** One more element of a prefix, alone and behind another sequence. */
  lemma OneLonger<T>(a: seq<T>, s: seq<T>, n: nat)
    requires n < |s|
    ensures s[..n + 1] == s[..n] + [s[n]]
    ensures a + s[..n + 1] == a + s[..n] + [s[n]]
  {
  }
}
