/**
 The romaji table (im/engine.h, im/engine.cc): a trie whose nodes are sorted arrays of actions.
 A push consumes a key and descends; a reduce replaces the pending keys by kana and may restart
 the spelling with one key, as the second "k" of "kka" does.
 */
module RomajiTable {
  import opened Wrappers

  /** In the table a restart is a pointer to an action; it is named here by that action's key. */
  datatype Action =
    | Push(key: char, next: Map)
    | Reduce(key: char, hiragana: string, katakana: string, restart: Option<char>)

  datatype Map = Map(children: seq<Action>)

  /** What std::lower_bound promises on a sorted array. */
  function LowerBound(xs: seq<Action>, key: char): (i: nat)
    ensures i <= |xs|
    ensures forall j :: 0 <= j < i ==> xs[j].key < key
    ensures i < |xs| ==> key <= xs[i].key
  {
    if xs == [] || key <= xs[0].key then 0 else 1 + LowerBound(xs[1..], key)
  }

  function Find(m: Map, key: char): Option<Action> {
    var i := LowerBound(m.children, key);
    if i == |m.children| || m.children[i].key != key then None else Some(m.children[i])
  }

  ghost predicate Sorted(m: Map) {
    forall i, j :: 0 <= i < j < |m.children| ==> m.children[i].key < m.children[j].key
  }

  /** On a sorted node the search finds exactly the child that carries the key. */
  lemma FindIsExact(m: Map, key: char, a: Action)
    requires Sorted(m)
    ensures Find(m, key) == Some(a) <==> a in m.children && a.key == key
  {
    var i := LowerBound(m.children, key);
    if a in m.children && a.key == key {
      var j :| 0 <= j < |m.children| && m.children[j] == a;
      assert i == j;
    }
  }

  /** The node reached from m by the pushes spelled by path. */
  function MapAt(m: Map, path: string): Option<Map>
    decreases |path|
  {
    if path == "" then Some(m)
    else
      match Find(m, path[0])
      case Some(Push(_, next)) => MapAt(next, path[1..])
      case _ => None
  }

  function Descend(m: Map, key: char): Option<Map> {
    match Find(m, key)
    case Some(Push(_, next)) => Some(next)
    case _ => None
  }

  lemma {:induction false} MapAtSnoc(m: Map, path: string, key: char)
    requires MapAt(m, path).Some?
    ensures MapAt(m, path + [key]) == Descend(MapAt(m, path).value, key)
    decreases |path|
  {
    if path == "" {
      assert ([key])[1..] == "";
    } else {
      assert (path + [key])[1..] == path[1..] + [key];
      MapAtSnoc(Find(m, path[0]).value.next, path[1..], key);
    }
  }

  lemma {:induction false} MapAtShrinks(m: Map, path: string)
    requires path != "" && MapAt(m, path).Some?
    ensures MapAt(m, path).value < m
    decreases |path|
  {
    var a := Find(m, path[0]).value;
    assert a in m.children;
    assert a.next < a < m;
    if path[1..] != "" {
      MapAtShrinks(a.next, path[1..]);
    }
  }

  /** A node below the top is never the top, so comparing nodes tells whether a path is pending. */
  lemma AtTopIffNothingPending(m: Map, path: string)
    requires MapAt(m, path).Some?
    ensures MapAt(m, path).value == m <==> path == ""
  {
    if path != "" {
      MapAtShrinks(m, path);
    }
  }

  /** Every restart below m names a push at the top of the table. */
  ghost predicate RestartsBelow(m: Map, top: Map) {
    forall a | a in m.children ::
      match a
      case Push(_, next) => RestartsBelow(next, top)
      case Reduce(_, _, _, restart) => restart.Some? ==> Descend(top, restart.value).Some?
  }

  lemma {:induction false} RestartsBelowAt(m: Map, path: string, top: Map)
    requires RestartsBelow(m, top) && MapAt(m, path).Some?
    ensures RestartsBelow(MapAt(m, path).value, top)
    decreases |path|
  {
    if path != "" {
      var a := Find(m, path[0]).value;
      assert a in m.children;
      RestartsBelowAt(a.next, path[1..], top);
    }
  }
}
