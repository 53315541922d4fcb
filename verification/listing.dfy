/**
 * Reading a whole table at once (`getAll`): every record, in ascending
 * order of key.
 */
module Listing {

  /** Strictly ascending keys, hence no key twice. */
  predicate Ascending(ids: seq<int>)
  {
    forall i, j :: 0 <= i < j < |ids| ==> ids[i] < ids[j]
  }

  /** `all` lists the table `m` in key order, `ids` giving the key of each entry. */
  ghost predicate InKeyOrder<T>(all: seq<T>, ids: seq<int>, m: map<int, T>)
  {
    && |all| == |ids|
    && Ascending(ids)
    && (forall j :: 0 <= j < |ids| ==> ids[j] in m && m[ids[j]] == all[j])
    && (forall k :: k in m ==> k in ids)
  }

  /** Every non-empty finite set of keys has a least key. */
  lemma {:induction false} LeastKeyExists(keys: set<int>)
    requires keys != {}
    ensures exists k :: k in keys && forall x :: x in keys ==> k <= x
  {
    if forall x :: x !in keys {
      assert false;
    }
    var y :| y in keys;
    var rest := keys - {y};
    if rest == {} {
      assert keys == {y};
      assert forall x :: x in keys ==> y <= x;
    } else {
      LeastKeyExists(rest);
      var m :| m in rest && forall x :: x in rest ==> m <= x;
      var least := if y < m then y else m;
      forall x | x in keys
        ensures least <= x
      {
        if x != y {
          assert x in rest;
        }
      }
      assert least in keys;
    }
  }

  /** A snapshot of the table `m`: its keys and its records, both in ascending key order. */
  method Snapshot<T>(m: map<int, T>) returns (ids: seq<int>, all: seq<T>)
    ensures InKeyOrder(all, ids, m)
  {
    var rest := m.Keys;
    ids, all := [], [];
    while rest != {}
      invariant rest <= m.Keys
      invariant |all| == |ids| && Ascending(ids)
      invariant forall j :: 0 <= j < |ids| ==> ids[j] in m && m[ids[j]] == all[j]
      invariant forall k :: k in m ==> k in ids || k in rest
      invariant forall j, k :: 0 <= j < |ids| && k in rest ==> ids[j] < k
      decreases rest
    {
      LeastKeyExists(rest);
      var k :| k in rest && forall x :: x in rest ==> k <= x;
      ids, all := ids + [k], all + [m[k]];
      rest := rest - {k};
    }
  }
}
