/** Small shared vocabulary: an optional value and duplicate-free sequences. */
module Common {

  datatype Option<+T> = None | Some(value: T)

  /** No element occurs twice (an intrusive list never links a node twice). */
  ghost predicate NoDup<T>(s: seq<T>)
  {
    forall i, j :: 0 <= i < j < |s| ==> s[i] != s[j]
  }

  /** The identifier sequence `s` with every occurrence of `x` unlinked, the rest in order. */
  function Without(s: seq<nat>, x: nat): (r: seq<nat>)
    ensures forall y :: y in r <==> y in s && y != x
    ensures |r| <= |s|
    ensures NoDup(s) ==> NoDup(r)
  {
    if s == [] then []
    else if s[0] == x then Without(s[1..], x)
    else
      var t := Without(s[1..], x);
      assert forall y :: y in [s[0]] + t <==> y in s && y != x;
      assert NoDup(s) ==> NoDup(s[1..]) && s[0] !in t by {
        if NoDup(s) {
          forall i, j | 0 <= i < j < |s[1..]| ensures s[1..][i] != s[1..][j] { assert s[1..][i] == s[i + 1]; }
        }
      }
      [s[0]] + t
  }
}
