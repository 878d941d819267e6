/** Sums of an integer-valued function over a finite set. */
module Sums {

  ghost function SumOver<K>(keys: set<K>, f: K -> int): int
  {
    if keys == {} then 0
    else
      var k :| k in keys;
      f(k) + SumOver(keys - {k}, f)
  }

  lemma {:induction false} SumRemove<K>(keys: set<K>, f: K -> int, k: K)
    requires k in keys
    ensures SumOver(keys, f) == f(k) + SumOver(keys - {k}, f)
  {
    var j :| j in keys && SumOver(keys, f) == f(j) + SumOver(keys - {j}, f);
    if j != k {
      SumRemove(keys - {j}, f, k);
      SumRemove(keys - {k}, f, j);
      assert keys - {j} - {k} == keys - {k} - {j};
    }
  }

  lemma {:induction false} SumAgree<K>(keys: set<K>, f: K -> int, g: K -> int)
    requires forall k :: k in keys ==> f(k) == g(k)
    ensures SumOver(keys, f) == SumOver(keys, g)
  {
    if keys != {} {
      var k :| k in keys;
      SumRemove(keys, f, k);
      SumRemove(keys, g, k);
      SumAgree(keys - {k}, f, g);
    }
  }

  function At<K(==)>(keys: set<K>, f: K -> int, k: K): int {
    if k in keys then f(k) else 0
  }

  /** Two sums that differ at one key only differ by what they hold there. */
  lemma SumChange<K>(before: set<K>, f: K -> int, after: set<K>, g: K -> int, k: K)
    requires before - {k} == after - {k}
    requires forall j :: j in before && j != k ==> f(j) == g(j)
    ensures SumOver(after, g) - SumOver(before, f) == At(after, g, k) - At(before, f, k)
  {
    var rest := before - {k};
    SumAgree(rest, f, g);
    if k in before {
      SumRemove(before, f, k);
    } else {
      assert rest == before;
    }
    if k in after {
      SumRemove(after, g, k);
    } else {
      assert rest == after;
    }
  }

  lemma {:induction false} SumAtLeastPart<K>(keys: set<K>, part: set<K>, f: K -> int)
    requires part <= keys
    requires forall k :: k in keys ==> f(k) >= 0
    ensures SumOver(keys, f) >= SumOver(part, f) >= 0
  {
    if keys != {} {
      var k :| k in keys;
      SumRemove(keys, f, k);
      if k in part {
        SumRemove(part, f, k);
      }
      SumAtLeastPart(keys - {k}, part - {k}, f);
      assert k !in part ==> part - {k} == part;
    }
  }

  lemma SumSingle<K>(k: K, f: K -> int)
    ensures SumOver({k}, f) == f(k)
  {
    SumRemove({k}, f, k);
    assert {k} - {k} == {};
  }
}
