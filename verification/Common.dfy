/** Small vocabulary shared by the models: optional values, duplicate-free sequences, counting. */
module Common {

  datatype Option<+T> = None | Some(value: T)

  /** One microsecond clock serves every timestamp; durations are given in seconds or minutes. */
  type Time = int
  const SECOND: int := 1_000_000
  const MINUTE: int := 60 * SECOND

  ghost predicate Distinct<T(!new)>(xs: seq<T>) {
    forall i, j :: 0 <= i < j < |xs| ==> xs[i] != xs[j]
  }

  /** Pigeonhole: a duplicate-free sequence is no longer than any set that holds all its elements. */
  lemma {:induction false} DistinctFits<T(!new)>(xs: seq<T>, s: set<T>)
    requires Distinct(xs)
    requires forall x :: x in xs ==> x in s
    ensures |xs| <= |s|
  {
    if xs != [] {
      var last := xs[|xs| - 1];
      assert last in xs;
      forall x | x in xs[..|xs| - 1] ensures x in s - {last} {
        var i :| 0 <= i < |xs| - 1 && xs[i] == x;
      }
      DistinctFits(xs[..|xs| - 1], s - {last});
    }
  }

  /** The numbers 1 .. n. */
  function UpTo(n: nat): (s: set<nat>)
    ensures forall k: nat :: k in s <==> 1 <= k <= n
  {
    if n == 0 then {} else UpTo(n - 1) + {n}
  }

  lemma {:induction false} UpToSize(n: nat)
    ensures |UpTo(n)| == n
  {
    if n > 0 {
      UpToSize(n - 1);
    }
  }

  lemma DistinctAppend<T(!new)>(xs: seq<T>, x: T)
    requires Distinct(xs) && x !in xs
    ensures Distinct(xs + [x])
  {
    forall i, j | 0 <= i < j < |xs + [x]| ensures (xs + [x])[i] != (xs + [x])[j] {
      assert (xs + [x])[i] == xs[i] && xs[i] in xs;
    }
  }
}
