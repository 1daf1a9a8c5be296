/** ORDER BY on groups: every group once, by descending weight, ties in any order. */
module Ranking {
  import opened Prelude

  ghost predicate Descending<K>(ks: seq<K>, weight: K -> int) {
    forall i, j :: 0 <= i < j < |ks| ==> weight(ks[i]) >= weight(ks[j])
  }

  lemma {:induction false} Heaviest<K>(ks: set<K>, weight: K -> int) returns (m: K)
    requires ks != {}
    ensures m in ks && forall x :: x in ks ==> weight(x) <= weight(m)
  {
    var k :| k in ks;
    var rest := ks - {k};
    assert forall x :: x in ks ==> x == k || x in rest;
    if rest == {} {
      m := k;
    } else {
      m := Heaviest(rest, weight);
      if weight(k) > weight(m) {
        m := k;
      }
    }
  }

  lemma RankedMore<K(!new)>(r: seq<K>, done: set<K>, k: K, todo: set<K>, weight: K -> int)
    requires Lists(r, done) && Descending(r, weight) && k !in done
    requires forall x, y :: x in done && y in todo ==> weight(y) <= weight(x)
    requires k in todo
    ensures Lists(r + [k], done + {k}) && Descending(r + [k], weight)
  {
    forall i | 0 <= i < |r|
      ensures r[i] != k && weight(r[i]) >= weight(k)
    {
      assert r[i] in done;
    }
  }

  method Rank<K(==,!new)>(ks: set<K>, weight: K -> int) returns (r: seq<K>)
    ensures Lists(r, ks) && Descending(r, weight)
  {
    r := [];
    var todo := ks;
    while todo != {}
      invariant todo <= ks
      invariant Lists(r, ks - todo) && Descending(r, weight)
      invariant forall x, y :: x in ks - todo && y in todo ==> weight(y) <= weight(x)
      decreases todo
    {
      ghost var m := Heaviest(todo, weight);
      var k :| k in todo && forall x :: x in todo ==> weight(x) <= weight(k);
      RankedMore(r, ks - todo, k, todo, weight);
      assert ks - (todo - {k}) == ks - todo + {k};
      r := r + [k];
      todo := todo - {k};
    }
    assert ks - todo == ks;
  }
}
