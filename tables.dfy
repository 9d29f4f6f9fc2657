/** A repository table as the services see it: rows keyed by a generated id. Queries that return
    lists scan the table in ascending key order. */
module Tables {

  /** The keys in [0, bound) whose rows `keep` accepts, in ascending order. */
  function Select<V>(rows: map<int, V>, bound: int, keep: V -> bool): (ids: seq<int>)
    ensures forall i, j :: 0 <= i < j < |ids| ==> ids[i] < ids[j]
    ensures forall k :: k in ids <==> 0 <= k < bound && k in rows && keep(rows[k])
    decreases bound
  {
    if bound <= 0 then []
    else
      var earlier := Select(rows, bound - 1, keep);
      assert forall i :: 0 <= i < |earlier| ==> earlier[i] in earlier;
      if bound - 1 in rows && keep(rows[bound - 1]) then earlier + [bound - 1] else earlier
  }

  /** Every key of `rows` lies in [0, bound): the table's ids were drawn from a counter now at `bound`. */
  ghost predicate KeysBelow<V>(rows: map<int, V>, bound: int) {
    forall k :: k in rows ==> 0 <= k < bound
  }

  /** The rows listed under `ids`, each projected through `f`. */
  function Project<V, R>(rows: map<int, V>, ids: seq<int>, f: V -> R): (r: seq<R>)
    requires forall i :: 0 <= i < |ids| ==> ids[i] in rows
    ensures |r| == |ids|
    ensures forall i :: 0 <= i < |ids| ==> r[i] == f(rows[ids[i]])
  {
    seq(|ids|, i requires 0 <= i < |ids| => f(rows[ids[i]]))
  }

  /** The projections of every row that `keep` accepts, in ascending key order: what a repository
      query followed by `stream().map(f)` yields. Each listed value is the projection of a
      matching row, and each matching row is listed. */
  function Query<V, R(!new)>(rows: map<int, V>, bound: int, keep: V -> bool, f: V -> R): (r: seq<R>)
    requires KeysBelow(rows, bound)
    ensures forall x :: x in r <==> exists k :: k in rows && keep(rows[k]) && x == f(rows[k])
  {
    var ids := Select(rows, bound, keep);
    var r := Project(rows, ids, f);
    assert forall x :: x in r ==> exists k :: k in rows && keep(rows[k]) && x == f(rows[k]) by {
      forall x | x in r ensures exists k :: k in rows && keep(rows[k]) && x == f(rows[k]) {
        var i :| 0 <= i < |r| && r[i] == x;
        assert ids[i] in ids;
      }
    }
    assert forall k :: k in rows && keep(rows[k]) ==> f(rows[k]) in r by {
      forall k | k in rows && keep(rows[k]) ensures f(rows[k]) in r {
        assert k in ids;
        var i :| 0 <= i < |ids| && ids[i] == k;
        assert r[i] == f(rows[k]);
      }
    }
    r
  }

  /** The listing follows ascending keys: the i-th entry is the i-th selected row. */
  lemma QueryInKeyOrder<V, R(!new)>(rows: map<int, V>, bound: int, keep: V -> bool, f: V -> R)
    requires KeysBelow(rows, bound)
    ensures var ids := Select(rows, bound, keep);
            |Query(rows, bound, keep, f)| == |ids| &&
            forall i :: 0 <= i < |ids| ==> Query(rows, bound, keep, f)[i] == f(rows[ids[i]])
  {
  }

  /** Two filters that agree on every row select the same keys. */
  lemma {:induction false} SelectAgrees<V>(rows: map<int, V>, bound: int, keep1: V -> bool, keep2: V -> bool)
    requires forall k :: k in rows ==> keep1(rows[k]) == keep2(rows[k])
    ensures Select(rows, bound, keep1) == Select(rows, bound, keep2)
    decreases bound
  {
    if bound > 0 {
      SelectAgrees(rows, bound - 1, keep1, keep2);
    }
  }
}
