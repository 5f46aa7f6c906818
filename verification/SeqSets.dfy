/** Sequences that list the elements of a set, each exactly once, and sizes of maps. */
module SeqSets {
  ghost predicate Lists<T>(s: seq<T>, xs: set<T>) {
    multiset(s) == multiset(xs)
  }

  lemma ListsMember<T>(s: seq<T>, xs: set<T>)
    requires Lists(s, xs)
    ensures forall x :: x in s <==> x in xs
    ensures s == [] <==> xs == {}
  {
    forall x ensures x in s <==> x in xs {
      assert x in s <==> x in multiset(s);
    }
    assert s != [] ==> s[0] in s;
  }

  lemma ListsHead<T>(s: seq<T>, xs: set<T>)
    requires Lists(s, xs) && s != []
    ensures s[0] in xs && Lists(s[1..], xs - {s[0]})
  {
    ListsMember(s, xs);
    assert s == [s[0]] + s[1..];
    assert multiset(s[1..]) == multiset(xs) - multiset{s[0]};
  }

  lemma ListsAppend<T>(s: seq<T>, xs: set<T>, t: seq<T>, ys: set<T>)
    requires Lists(s, xs) && Lists(t, ys) && xs !! ys
    ensures Lists(s + t, xs + ys)
  {
  }

  lemma ListsSnoc<T>(s: seq<T>, xs: set<T>, x: T)
    requires Lists(s, xs) && x !in xs
    ensures Lists(s + [x], xs + {x})
  {
  }

  lemma ListsDistinct<T>(s: seq<T>, xs: set<T>, i: nat, j: nat)
    requires Lists(s, xs) && i < j < |s|
    ensures s[i] != s[j]
  {
    assert s == s[..j] + s[j..];
    assert multiset(s)[s[i]] == multiset(s[..j])[s[i]] + multiset(s[j..])[s[i]];
    assert s[i] in multiset(s[..j]) && s[j] in multiset(s[j..]);
  }

  lemma ListsFresh<T>(s: seq<T>, xs: set<T>, i: nat)
    requires Lists(s, xs) && i < |s|
    ensures s[i] in xs && s[i] !in s[..i]
  {
    ListsMember(s, xs);
    forall k | 0 <= k < i ensures s[k] != s[i] {
      ListsDistinct(s, xs, k, i);
    }
  }

  /** The elements of a hash set or the keys of a hash map, in an arbitrary order. */
  method AnyOrder<T(==)>(xs: set<T>) returns (s: seq<T>)
    ensures Lists(s, xs)
  {
    s := [];
    var rest := xs;
    while rest != {}
      invariant rest <= xs && Lists(s, xs - rest)
    {
      var x :| x in rest;
      ListsSnoc(s, xs - rest, x);
      assert xs - rest + {x} == xs - (rest - {x});
      s := s + [x];
      rest := rest - {x};
    }
    assert xs - rest == xs;
  }

  function Reversed<T>(s: seq<T>): (r: seq<T>)
    ensures |r| == |s|
    ensures forall i :: 0 <= i < |s| ==> r[i] == s[|s| - 1 - i]
  {
    if s == [] then [] else Reversed(s[1..]) + [s[0]]
  }

  lemma ReversedSnoc<T>(s: seq<T>, x: T)
    ensures Reversed(s + [x]) == [x] + Reversed(s)
  {
  }

  lemma ReversedMember<T>(s: seq<T>)
    ensures forall x :: x in Reversed(s) <==> x in s
  {
  }

  /** A map that lacks a key of another, and has no others, is smaller. */
  lemma SmallerMap<K, V>(m: map<K, V>, kept: map<K, V>, key: K)
    requires kept.Keys <= m.Keys && key in m && key !in kept
    ensures |kept| < |m|
  {
    var without := m.Keys - {key};
    assert kept.Keys <= without;
    assert without == kept.Keys + (without - kept.Keys);
  }
}
