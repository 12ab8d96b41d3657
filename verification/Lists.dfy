/**
 Lists of declarations that must each be well formed and have their own key, taken one at a time from the front.
 */
module Lists {

  /** Every element is good, and no two have the same key. */
  ghost predicate EachOnce<T(!new), K>(good: T -> bool, key: T -> K, xs: seq<T>) {
    && (forall i :: 0 <= i < |xs| ==> good(xs[i]))
    && (forall i, j :: 0 <= i < j < |xs| ==> key(xs[i]) != key(xs[j]))
  }

  predicate NoRepeats<T(==)>(xs: seq<T>) {
    forall i, j :: 0 <= i < j < |xs| ==> xs[i] != xs[j]
  }

  function Mapped<T, U>(f: T -> U, xs: seq<T>): (ys: seq<U>)
    ensures |ys| == |xs| && forall i :: 0 <= i < |xs| ==> ys[i] == f(xs[i])
  {
    seq(|xs|, i requires 0 <= i < |xs| => f(xs[i]))
  }

  lemma MappedOneMore<T, U>(f: T -> U, xs: seq<T>, n: nat)
    requires n < |xs|
    ensures Mapped(f, xs[..n + 1]) == Mapped(f, xs[..n]) + [f(xs[n])]
  {
    assert xs[..n + 1] == xs[..n] + [xs[n]];
  }

  /** Reading one more element: it must be good and its key new. */
  lemma EachOnceOneMore<T(!new), K>(good: T -> bool, key: T -> K, xs: seq<T>, n: nat)
    requires n < |xs|
    ensures EachOnce(good, key, xs[..n + 1]) <==>
            EachOnce(good, key, xs[..n]) && good(xs[n]) && key(xs[n]) !in Mapped(key, xs[..n])
    ensures EachOnce(good, key, xs) ==> EachOnce(good, key, xs[..n + 1])
  {
    var all, front := xs[..n + 1], xs[..n];
    assert all == front + [xs[n]];
    if EachOnce(good, key, all) {
      assert good(all[n]);
      forall i, j | 0 <= i < j < n ensures key(front[i]) != key(front[j]) {
        assert key(all[i]) != key(all[j]);
      }
      forall i | 0 <= i < n ensures Mapped(key, front)[i] != key(xs[n]) && good(front[i]) {
        assert good(all[i]) && key(all[i]) != key(all[n]);
      }
    } else if EachOnce(good, key, front) && good(xs[n]) {
      assert forall i :: 0 <= i < n ==> Mapped(key, front)[i] == key(front[i]);
    }
  }

  /** Two keys that tell x from the elements of xs alike. */
  lemma SameMembership<T, K, L>(key: T -> K, other: T -> L, xs: seq<T>, x: T)
    requires forall i :: 0 <= i < |xs| ==> (key(xs[i]) == key(x) <==> other(xs[i]) == other(x))
    ensures key(x) in Mapped(key, xs) <==> other(x) in Mapped(other, xs)
  {
    if i :| 0 <= i < |xs| && key(xs[i]) == key(x) {
      assert Mapped(key, xs)[i] == key(x) && Mapped(other, xs)[i] == other(x);
    }
  }
}
