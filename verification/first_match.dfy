/**
 * Ordered-candidate selection: the "first element that qualifies wins"
 * rule shared by resource-manager resolution, the keystone version pick
 * and the online-controller lookup.
 */
module FirstMatch {

  /** Index of the first element of `s` satisfying `p`, or `|s|` when none does. */
  function FirstIndex<T>(s: seq<T>, p: T -> bool): (i: nat)
    ensures i <= |s|
    ensures forall j :: 0 <= j < i ==> !p(s[j])
    ensures i < |s| ==> p(s[i])
    decreases |s|
  {
    if |s| == 0 then 0
    else if p(s[0]) then 0
    else 1 + FirstIndex(s[1..], p)
  }

  /**
   * Once some candidate qualifies, the candidates after it are never
   * consulted: appending anything leaves the choice unchanged.
   */
  lemma {:induction false} FirstIndexIgnoresSuffix<T>(s: seq<T>, t: seq<T>, p: T -> bool)
    requires FirstIndex(s, p) < |s|
    ensures FirstIndex(s + t, p) == FirstIndex(s, p)
  {
    if !p(s[0]) {
      assert (s + t)[1..] == s[1..] + t;
      FirstIndexIgnoresSuffix(s[1..], t, p);
    }
  }

  /** When nothing in `s` qualifies, the search over `s + t` is decided by `t` alone. */
  lemma {:induction false} FirstIndexSkipsExhausted<T>(s: seq<T>, t: seq<T>, p: T -> bool)
    requires FirstIndex(s, p) == |s|
    ensures FirstIndex(s + t, p) == |s| + FirstIndex(t, p)
  {
    if |s| == 0 {
      assert s + t == t;
    } else {
      assert !p(s[0]);
      assert (s + t)[1..] == s[1..] + t;
      FirstIndexSkipsExhausted(s[1..], t, p);
    }
  }
}
