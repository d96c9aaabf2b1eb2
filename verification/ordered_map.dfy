/** std::map with string keys as its in-order sequence of pairs. */
module OrderedMaps {
  import opened Wrappers
  import opened Lexicographic

  ghost predicate Sorted<V>(m: seq<(string, V)>) {
    forall i, j :: 0 <= i < j < |m| ==> Less(m[i].0, m[j].0)
  }

  function LowerBound<V>(m: seq<(string, V)>, key: string): (r: nat)
    ensures r <= |m|
    ensures forall i :: 0 <= i < r ==> Less(m[i].0, key)
    ensures r < |m| ==> !Less(m[r].0, key)
  {
    if m == [] || !Less(m[0].0, key) then 0 else 1 + LowerBound(m[1..], key)
  }

  function Find<V>(m: seq<(string, V)>, key: string): Option<V> {
    var i := LowerBound(m, key);
    if i < |m| && m[i].0 == key then Some(m[i].1) else None
  }

  /** Insert, or replace what the key had. */
  function Update<V>(m: seq<(string, V)>, key: string, v: V): seq<(string, V)> {
    var i := LowerBound(m, key);
    if i < |m| && m[i].0 == key then m[i := (key, v)] else m[..i] + [(key, v)] + m[i..]
  }

  function FindOr<V>(m: seq<(string, V)>, key: string, default: V): V {
    match Find(m, key)
    case Some(v) => v
    case None => default
  }

  /** In a sorted map the search finds the pair with the key, and no pair if there is none. */
  lemma FindIsExact<V>(m: seq<(string, V)>, key: string)
    requires Sorted(m)
    ensures forall i :: 0 <= i < |m| && m[i].0 == key ==> Find(m, key) == Some(m[i].1)
    ensures (forall i :: 0 <= i < |m| ==> m[i].0 != key) ==> Find(m, key) == None
  {
    var r := LowerBound(m, key);
    forall i | 0 <= i < |m| && m[i].0 == key ensures i == r {
      Trichotomy(key, key);
    }
  }

  lemma UpdateKeepsSorted<V>(m: seq<(string, V)>, key: string, v: V)
    requires Sorted(m)
    ensures Sorted(Update(m, key, v))
  {
    var r, u := LowerBound(m, key), Update(m, key, v);
    if !(r < |m| && m[r].0 == key) {
      forall i | r <= i < |m| ensures Less(key, m[i].0) {
        Trichotomy(key, m[r].0);
        if r < i { Transitivity(key, m[r].0, m[i].0); }
      }
      assert forall i :: 0 <= i < |u| ==> u[i] == if i < r then m[i] else if i == r then (key, v) else m[i - 1];
    }
  }

  lemma FindAfterUpdate<V>(m: seq<(string, V)>, key: string, v: V, other: string)
    requires Sorted(m)
    ensures Find(Update(m, key, v), other) == if other == key then Some(v) else Find(m, other)
  {
    var r, u := LowerBound(m, key), Update(m, key, v);
    UpdateKeepsSorted(m, key, v);
    FindIsExact(m, other);
    FindIsExact(u, other);
    if other == key {
      assert u[r] == (key, v);
    } else if i :| 0 <= i < |m| && m[i].0 == other {
      var j := if |u| == |m| || i < r then i else i + 1;
      assert u[j] == m[i];
    } else {
      forall j | 0 <= j < |u| ensures u[j].0 != other {
        if |u| == |m| || j < r {
        } else if j > r {
          assert u[j] == m[j - 1];
        }
      }
    }
  }

  /** A key below all others goes to the front, one above all others to the end. */
  lemma UpdateAtEnds<V>(m: seq<(string, V)>, key: string, v: V)
    ensures (forall i :: 0 <= i < |m| ==> Less(key, m[i].0))
        ==> Find(m, key) == None && Update(m, key, v) == [(key, v)] + m
    ensures (forall i :: 0 <= i < |m| ==> Less(m[i].0, key))
        ==> Find(m, key) == None && Update(m, key, v) == m + [(key, v)]
  {
    Trichotomy(key, key);
    if m != [] { Trichotomy(key, m[0].0); }
  }

  lemma UpdateLast<V>(m: seq<(string, V)>, key: string, v: V, w: V)
    requires forall i :: 0 <= i < |m| ==> Less(m[i].0, key)
    ensures Find(m + [(key, v)], key) == Some(v) && Update(m + [(key, v)], key, w) == m + [(key, w)]
  {
    var u := m + [(key, v)];
    var r := LowerBound(u, key);
    Trichotomy(key, key);
    assert u[|m|] == (key, v) && u[..|m|] == m;
    assert forall i :: 0 <= i < |m| ==> u[i] == m[i];
  }
}
