/** Lists of rows without repetition, and a ring. */
module Pools {
  ghost predicate Distinct<T>(s: seq<T>) {
    forall i, j :: 0 <= i < j < |s| ==> s[i] != s[j]
  }

  lemma {:induction false} CountsAtMostOnce<T>(s: seq<T>, x: T)
    requires Distinct(s)
    ensures multiset(s)[x] <= 1
  {
    if s != [] {
      assert s == [s[0]] + s[1..];
      CountsAtMostOnce(s[1..], x);
      if multiset(s[1..])[x] > 0 {
        assert x in multiset(s[1..]);
        var i :| 0 <= i < |s| - 1 && s[1..][i] == x;
        assert s[i + 1] == x && s[0] != s[i + 1];
      }
    }
  }

  /** The same elements in another order are still distinct. */
  lemma PermutedIsDistinct<T>(s: seq<T>, t: seq<T>)
    requires Distinct(s) && multiset(s) == multiset(t)
    ensures Distinct(t) && forall x :: x in s <==> x in t
  {
    forall i, j | 0 <= i < j < |t| ensures t[i] != t[j] {
      CountsAtMostOnce(s, t[i]);
      assert t == t[..i] + [t[i]] + t[i + 1..j] + [t[j]] + t[j + 1..];
    }
    forall x ensures x in s <==> x in t {
      assert x in s <==> x in multiset(s);
      assert x in t <==> x in multiset(t);
    }
  }

  lemma DistinctParts<T>(a: seq<T>, b: seq<T>, c: seq<T>)
    requires Distinct(a + b + c)
    ensures Distinct(a) && Distinct(b) && Distinct(c)
    ensures forall x :: x in a ==> x !in b && x !in c
    ensures forall x :: x in b ==> x !in c
  {
    var p := a + b + c;
    assert forall i :: 0 <= i < |a| ==> p[i] == a[i];
    assert forall i :: 0 <= i < |b| ==> p[|a| + i] == b[i];
    assert forall i :: 0 <= i < |c| ==> p[|a| + |b| + i] == c[i];
  }

  /** The elements of a ring that begins somewhere, in order. */
  function Ring<T>(slots: seq<T>, begin: nat, size: nat): (r: seq<T>)
    requires begin < |slots| && size <= |slots|
    ensures |r| == size
  {
    (slots[begin..] + slots[..begin])[..size]
  }

  lemma ModWraps(k: nat, n: nat)
    requires 0 < n && k < 2 * n
    ensures k % n == if k < n then k else k - n
  {
    if k >= n {
      assert k == n * 1 + (k - n);
    }
  }

  /** Slot numbers wrap around. */
  lemma RingAt<T>(slots: seq<T>, begin: nat, size: nat, i: nat)
    requires begin < |slots| && i < size <= |slots|
    ensures 0 <= (begin + i) % |slots| < |slots| && Ring(slots, begin, size)[i] == slots[(begin + i) % |slots|]
  {
    ModWraps(begin + i, |slots|);
  }

  /** Replacing the oldest element of a full ring drops it and adds the new one at the end. */
  lemma RingTurns<T>(slots: seq<T>, begin: nat, x: T)
    requires begin < |slots|
    ensures Ring(slots[begin := x], (begin + 1) % |slots|, |slots|) == Ring(slots, begin, |slots|)[1..] + [x]
  {
    ModWraps(begin + 1, |slots|);
  }

  /** Filling the next slot of a ring that is not full adds the element at the end. */
  lemma RingGrows<T>(slots: seq<T>, size: nat, x: T)
    requires size < |slots|
    ensures Ring(slots[size := x], 0, size + 1) == Ring(slots, 0, size) + [x]
  {
  }

  /** The elements from y to e turned so that the one at m comes first. */
  function Rotated<T>(s: seq<T>, y: nat, m: nat, e: nat): (r: seq<T>)
    requires y <= m <= e <= |s|
    ensures |r| == |s|
    ensures forall i {:trigger r[i]} :: 0 <= i < |s| ==>
              r[i] == if y <= i < y + e - m then s[i + m - y] else if y + e - m <= i < e then s[i - (e - m)] else s[i]
  {
    s[..y] + s[m..e] + s[y..m] + s[e..]
  }

  lemma RotatedIsPermuted<T>(s: seq<T>, y: nat, m: nat, e: nat)
    requires y <= m <= e <= |s|
    ensures multiset(Rotated(s, y, m, e)) == multiset(s)
  {
    assert s == s[..y] + s[y..m] + s[m..e] + s[e..];
  }

  lemma PartPermuted<T>(a: seq<T>, b: seq<T>, c: seq<T>, b': seq<T>, c': seq<T>)
    requires multiset(b) == multiset(b') && multiset(c) == multiset(c')
    ensures multiset(a + b + c) == multiset(a + b' + c')
  {
  }

  function Elements<T>(s: seq<T>): set<T> {
    set x | x in s
  }

  lemma SameElements<T>(s: seq<T>, t: seq<T>)
    requires multiset(s) == multiset(t)
    ensures Elements(s) == Elements(t)
  {
    assert forall x :: x in s <==> x in multiset(s);
    assert forall x :: x in t <==> x in multiset(t);
  }

  /** Putting the first element of one part in a slot of the log, and what was there at the end of the part. */
  lemma PushConserves<T>(log: seq<T>, b: seq<T>, c: seq<T>, slot: nat, last: bool)
    requires slot < |log| && (if last then c != [] else b != [])
    ensures var rows := if last then c else b;
            var shifted := rows[1..] + [log[slot]];
            multiset(log[slot := rows[0]] + (if last then b else shifted) + (if last then shifted else c))
              == multiset(log + b + c)
  {
    var rows := if last then c else b;
    assert rows == [rows[0]] + rows[1..];
  }
}
