// The `List<int>` operations the keyboard and mouse processors use to remember
// which keys and buttons they are holding down.
module IntList {

  /** No value occurs twice. */
  predicate NoDuplicates(xs: seq<int>) {
    forall i, j | 0 <= i < j < |xs| :: xs[i] != xs[j]
  }

  /** `List.Remove`: drops the first occurrence of `x`, if there is one. */
  function Remove(xs: seq<int>, x: int): (r: seq<int>)
    ensures x !in xs ==> r == xs
    ensures x in xs ==> |r| == |xs| - 1
    ensures multiset(r) == multiset(xs) - multiset{x}
  {
    if |xs| == 0 then xs
    else
      assert xs == [xs[0]] + xs[1..];
      if xs[0] == x then xs[1..] else [xs[0]] + Remove(xs[1..], x)
  }

  lemma NoDuplicatesCons(a: int, t: seq<int>)
    ensures NoDuplicates([a] + t) <==> a !in t && NoDuplicates(t)
  {
    var xs := [a] + t;
    if NoDuplicates(xs) {
      forall i, j | 0 <= i < j < |t| ensures t[i] != t[j] {
        assert t[i] == xs[i + 1] && t[j] == xs[j + 1];
      }
      forall k | 0 <= k < |t| ensures t[k] != a {
        assert xs[0] == a && t[k] == xs[k + 1];
      }
    }
  }

  /** Without duplicates, removing a value removes it altogether and keeps the
      rest free of duplicates. */
  lemma {:induction false} RemoveForgets(xs: seq<int>, x: int)
    requires NoDuplicates(xs)
    ensures x !in Remove(xs, x)
    ensures NoDuplicates(Remove(xs, x))
    ensures forall y | y in Remove(xs, x) :: y in xs
  {
    var r := Remove(xs, x);
    forall y | y in r ensures y in xs {
      assert y in multiset(r);
    }
    if |xs| > 0 {
      var tail := xs[1..];
      assert xs == [xs[0]] + tail;
      NoDuplicatesCons(xs[0], tail);
      if xs[0] != x {
        RemoveForgets(tail, x);
        var rt := Remove(tail, x);
        assert r == [xs[0]] + rt;
        NoDuplicatesCons(xs[0], rt);
      }
    }
  }

  /** Appending a value that is absent keeps the list free of duplicates. */
  lemma AppendAbsent(xs: seq<int>, x: int)
    requires NoDuplicates(xs) && x !in xs
    ensures NoDuplicates(xs + [x])
  {
  }
}
