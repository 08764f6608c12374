/** Facts about finite sequences that several modules use. */
module Sequences {
  function AsSet<T(==)>(s: seq<T>): set<T> {
    set x | x in s
  }

  ghost predicate Distinct<T>(s: seq<T>) {
    forall j, k :: 0 <= j < k < |s| ==> s[j] != s[k]
  }

  lemma AppendSets<T>(s: seq<T>, x: T)
    ensures AsSet(s + [x]) == AsSet(s) + {x}
    ensures Distinct(s) && x !in AsSet(s) ==> Distinct(s + [x])
  {
  }

  lemma SliceSets<T>(s: seq<T>, i: nat)
    requires i < |s| && Distinct(s)
    ensures s[i] in AsSet(s[i..]) && AsSet(s[i + 1..]) == AsSet(s[i..]) - {s[i]}
    ensures AsSet(s[..i + 1]) == AsSet(s[..i]) + {s[i]}
  {
    assert s[i..] == [s[i]] + s[i + 1..];
    assert s[..i + 1] == s[..i] + [s[i]];
  }

  lemma Regrouped<T>(a: seq<T>, b: seq<T>, c: seq<T>)
    ensures (a + b) + c == a + (b + c)
  {
  }

  lemma NothingAdded<T>(a: seq<T>)
    ensures [] + a == a && a + [] == a
  {
  }

  lemma LastApart<T>(s: seq<T>, front: seq<T>, last: T)
    ensures front + [last] == s <==> s != [] && s[|s| - 1] == last && s[..|s| - 1] == front
    ensures s != [] ==> s[..|s| - 1] + [s[|s| - 1]] == s
  {
  }
}
