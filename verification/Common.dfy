/** Small definitions shared by the models. */
module Common {

  datatype Option<+T> = None | Some(value: T)

  /** The sum of a sequence of weights. */
  function Sum(xs: seq<nat>): (total: nat)
  {
    if xs == [] then 0 else xs[0] + Sum(xs[1..])
  }

  lemma {:induction false} SumUpdate(xs: seq<nat>, i: nat, v: nat)
    requires i < |xs|
    ensures Sum(xs[i := v]) == Sum(xs) - xs[i] + v
  {
    if i == 0 {
      assert xs[i := v][1..] == xs[1..];
    } else {
      assert xs[i := v][1..] == xs[1..][i - 1 := v];
      SumUpdate(xs[1..], i - 1, v);
    }
  }

  lemma {:induction false} SumAppend(xs: seq<nat>, v: nat)
    ensures Sum(xs + [v]) == Sum(xs) + v
  {
    if xs != [] {
      assert (xs + [v])[1..] == xs[1..] + [v];
      SumAppend(xs[1..], v);
    }
  }

  /** A positive total has a positive term. */
  lemma {:induction false} SumPositive(xs: seq<nat>)
    requires Sum(xs) > 0
    ensures exists i :: 0 <= i < |xs| && xs[i] > 0
  {
    if xs[0] == 0 {
      SumPositive(xs[1..]);
      var j :| 0 <= j < |xs[1..]| && xs[1..][j] > 0;
      assert xs[j + 1] > 0;
    }
  }

  lemma {:induction false} SumZero(xs: seq<nat>)
    requires forall i :: 0 <= i < |xs| ==> xs[i] == 0
    ensures Sum(xs) == 0
  {
    if xs != [] {
      SumZero(xs[1..]);
    }
  }

  function Map<A, B>(f: A -> B, xs: seq<A>): (r: seq<B>)
    ensures |r| == |xs|
  {
    seq(|xs|, i requires 0 <= i < |xs| => f(xs[i]))
  }

  lemma MapAppend<A, B>(f: A -> B, xs: seq<A>, x: A)
    ensures Map(f, xs + [x]) == Map(f, xs) + [f(x)]
  {
  }

  lemma MapsAgree<A, B, C>(f: A -> C, xs: seq<A>, g: B -> C, ys: seq<B>)
    requires |xs| == |ys| && forall k :: 0 <= k < |xs| ==> f(xs[k]) == g(ys[k])
    ensures Map(f, xs) == Map(g, ys)
  {
  }

  function Without<A>(xs: seq<A>, j: nat): seq<A>
    requires j < |xs|
  {
    xs[..j] + xs[j + 1..]
  }

  lemma RemoveAt<A>(xs: seq<A>, j: nat)
    requires j < |xs|
    ensures multiset(xs) == multiset(Without(xs, j)) + multiset{xs[j]}
  {
    assert xs == xs[..j] + [xs[j]] + xs[j + 1..];
  }

  lemma RemoveMappedAt<A, B>(f: A -> B, xs: seq<A>, j: nat)
    requires j < |xs|
    ensures multiset(Map(f, xs)) == multiset(Map(f, Without(xs, j))) + multiset{f(xs[j])}
  {
    RemoveAt(Map(f, xs), j);
    assert Without(Map(f, xs), j) == Map(f, Without(xs, j));
  }

  lemma CancelOne<A>(a: multiset<A>, b: multiset<A>, x: A)
    requires a + multiset{x} == b + multiset{x}
    ensures a == b
  {
    assert a == a + multiset{x} - multiset{x};
  }

  /** Equal collections stay equal under any function, also one that maps different elements to one. */
  lemma {:induction false} MapPermute<A, B>(f: A -> B, a: seq<A>, b: seq<A>)
    requires multiset(a) == multiset(b)
    ensures multiset(Map(f, a)) == multiset(Map(f, b))
    decreases |a|
  {
    if b == [] {
      assert |multiset(a)| == |a|;
    } else {
      hide Map;
      assert b[0] in multiset(a);
      var j :| 0 <= j < |a| && a[j] == b[0];
      RemoveAt(a, j);
      RemoveAt(b, 0);
      CancelOne(multiset(Without(a, j)), multiset(Without(b, 0)), b[0]);
      MapPermute(f, Without(a, j), Without(b, 0));
      RemoveMappedAt(f, a, j);
      RemoveMappedAt(f, b, 0);
    }
  }

  /** An element of a set; which one is not known, as in iteration over a Go map. */
  method Pick<A(==)>(xs: set<A>) returns (x: A)
    requires xs != {}
    ensures x in xs
  {
    x :| x in xs;
  }

  function Min(a: nat, b: nat): nat {
    if a < b then a else b
  }
}
