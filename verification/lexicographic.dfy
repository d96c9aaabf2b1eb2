/** The order of byte strings by their codes (std::vector::operator< and std::map's std::less). */
module Lexicographic {
  predicate Less(a: string, b: string) {
    if b == "" then false
    else if a == "" then true
    else if a[0] != b[0] then a[0] < b[0]
    else Less(a[1..], b[1..])
  }

  lemma {:induction false} Trichotomy(a: string, b: string)
    ensures a == b ==> !Less(a, b)
    ensures a != b ==> (Less(a, b) <==> !Less(b, a))
  {
    if a != "" && b != "" && a[0] == b[0] {
      Trichotomy(a[1..], b[1..]);
      assert a == [a[0]] + a[1..] && b == [b[0]] + b[1..];
    }
  }

  lemma {:induction false} Transitivity(a: string, b: string, c: string)
    requires Less(a, b) && Less(b, c)
    ensures Less(a, c)
  {
    if a != "" && a[0] == b[0] && b[0] == c[0] {
      Transitivity(a[1..], b[1..], c[1..]);
    }
  }

  /** The first difference, or the end of one string, decides. */
  lemma {:induction false} FirstDifference(a: string, b: string, n: nat)
    requires n <= |a| && n <= |b| && forall i :: 0 <= i < n ==> a[i] == b[i]
    requires n < |a| && n < |b| ==> a[n] != b[n]
    ensures Less(a, b) <==> n < |b| && (n == |a| || a[n] < b[n])
    ensures Less(b, a) <==> n < |a| && (n == |b| || b[n] < a[n])
    ensures a == b <==> n == |a| && n == |b|
  {
    if n > 0 {
      assert a[0] == b[0];
      FirstDifference(a[1..], b[1..], n - 1);
    }
  }
}
