/**
 * The single SQL statements the repositories issue, over a table seen as a
 * map from primary key to row: a SELECT ... WHERE that returns rows in no
 * promised order, and the set of rows an UPDATE or DELETE ... WHERE affects.
 */
module Query {
  import opened Schema

  /** No key occurs twice. */
  ghost predicate Distinct(ks: seq<Uuid>) {
    forall i, j :: 0 <= i < j < |ks| ==> ks[i] != ks[j]
  }

  /**
   * The keys of `t` in the order a full scan happens to meet them. Without
   * ORDER BY the store promises no order, so this fixes none: only that
   * every key comes exactly once.
   */
  ghost function Scan<R>(t: map<Uuid, R>): (ks: seq<Uuid>)
    ensures |ks| == |t|
    ensures forall k :: k in ks <==> k in t
    ensures Distinct(ks)
    decreases |t|
  {
    if |t| == 0 then []
    else
      assert t.Keys != {};
      var k :| k in t;
      var rest := t - {k};
      assert rest.Keys == t.Keys - {k};
      assert |rest| == |t| - 1;
      var tail := Scan(rest);
      assert k !in tail;
      [k] + tail
  }

  /** The keys of `ks`, in the same order, whose rows satisfy the condition `p`. */
  function Where<R>(t: map<Uuid, R>, ks: seq<Uuid>, p: (Uuid, R) -> bool): (hits: seq<Uuid>)
    requires forall k :: k in ks ==> k in t
    ensures |hits| <= |ks|
    ensures forall k :: k in hits <==> k in ks && p(k, t[k])
    ensures Distinct(ks) ==> Distinct(hits)
  {
    if ks == [] then []
    else
      var rest := Where(t, ks[1..], p);
      if p(ks[0], t[ks[0]]) then [ks[0]] + rest else rest
  }

  /**
   * The keys of the rows a SELECT ... WHERE `p` loads, in scan order: each
   * matching row exactly once.
   */
  ghost function SelectKeys<R>(t: map<Uuid, R>, p: (Uuid, R) -> bool): (ks: seq<Uuid>)
    ensures forall k :: k in ks <==> k in t && p(k, t[k])
    ensures Distinct(ks)
    ensures |ks| == |Affected(t, p)|
  {
    var ks := Where(t, Scan(t), p);
    assert (set k | k in ks) == Affected(t, p);
    DistinctCard(ks);
    ks
  }

  /** The rows stored under `ks`, in that order. */
  function Rows<R>(t: map<Uuid, R>, ks: seq<Uuid>): (rows: seq<R>)
    requires forall k :: k in ks ==> k in t
    ensures |rows| == |ks|
    ensures forall i :: 0 <= i < |ks| ==> rows[i] == t[ks[i]]
  {
    seq(|ks|, i requires 0 <= i < |ks| => t[ks[i]])
  }

  /** A sequence without repetitions has as many elements as its set. */
  lemma {:induction false} DistinctCard(ks: seq<Uuid>)
    requires Distinct(ks)
    ensures |set k | k in ks| == |ks|
  {
    if ks != [] {
      DistinctCard(ks[1..]);
      assert (set k | k in ks) == (set k | k in ks[1..]) + {ks[0]};
      assert ks[0] !in ks[1..];
    }
  }

  /** The keys of the rows an UPDATE or DELETE ... WHERE `p` touches. */
  function Affected<R>(t: map<Uuid, R>, p: (Uuid, R) -> bool): (ks: set<Uuid>)
    ensures ks <= t.Keys
    ensures forall k :: k in t ==> (k in ks <==> p(k, t[k]))
  {
    set k | k in t && p(k, t[k])
  }

  /** A condition that compares the primary key with `id` touches at most that row. */
  lemma AffectedByKey<R>(t: map<Uuid, R>, id: Uuid, p: (Uuid, R) -> bool)
    requires forall k, row :: p(k, row) ==> k == id
    ensures Affected(t, p) == if id in t && p(id, t[id]) then {id} else {}
    ensures |Affected(t, p)| <= 1
  {
  }

  /** Applies an UPDATE's SET clause `change` to the rows in `ks`. */
  function UpdateRows<R>(t: map<Uuid, R>, ks: set<Uuid>, change: R -> R): (u: map<Uuid, R>)
    ensures u.Keys == t.Keys
    ensures forall k :: k in t && k !in ks ==> u[k] == t[k]
    ensures forall k :: k in t && k in ks ==> u[k] == change(t[k])
  {
    map k | k in t :: if k in ks then change(t[k]) else t[k]
  }
}
