/**
 How many entries of a map have a property, and how that number moves when one entry does. The
 concurrency models count threads in certain places with it.
 */
module Counting {

  function Having<K(==), V>(m: map<K, V>, p: V -> bool): set<K> {
    set k | k in m && p(m[k])
  }

  function Count<K(==), V>(m: map<K, V>, p: V -> bool): nat {
    |Having(m, p)|
  }

  function One(b: bool): nat {
    if b then 1 else 0
  }

  lemma CountSet<K, V>(m: map<K, V>, k: K, v: V, p: V -> bool)
    ensures Count(m[k := v], p) == Count(m, p) + One(p(v)) - One(k in m && p(m[k]))
  {
    var before, after := Having(m, p), Having(m[k := v], p);
    if p(v) {
      assert after == before + {k};
    } else {
      assert after == before - {k};
    }
  }

  lemma CountRemove<K, V>(m: map<K, V>, k: K, p: V -> bool)
    ensures Count(m - {k}, p) == Count(m, p) - One(k in m && p(m[k]))
  {
    assert Having(m - {k}, p) == Having(m, p) - {k};
  }

  lemma CountSees<K, V>(m: map<K, V>, k: K, p: V -> bool)
    requires k in m && p(m[k])
    ensures Count(m, p) > 0
  {
    assert k in Having(m, p);
  }

  lemma CountNone<K, V>(m: map<K, V>, p: V -> bool)
    ensures Count(m, p) == 0 <==> forall k :: k in m ==> !p(m[k])
  {
    if Count(m, p) == 0 {
      forall k | k in m ensures !p(m[k]) {
        assert k !in Having(m, p);
      }
    } else {
      var k :| k in Having(m, p);
    }
  }

  lemma CountOnce<K, V>(m: map<K, V>, a: K, b: K, p: V -> bool)
    requires a in m && b in m && p(m[a]) && p(m[b]) && Count(m, p) <= 1
    ensures a == b
  {
    var rest := Having(m, p) - {a};
    assert |rest| == 0;
    assert b !in rest;
  }
}
