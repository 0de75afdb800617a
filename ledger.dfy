/**
 The debt-graph storage shared by every copy of the settlement graph: two
 adjacency indices over the same set of directed, weighted edges, the paired
 write and delete that keep them in step, and the two quantities the collapse
 algorithm is judged by — every node's net position and the total weight.
 */
module Ledger {

  type Id = string

  /** One adjacency row: neighbour to amount. */
  type Row = map<Id, int>

  /** An adjacency index: node to its row. */
  type Index = map<Id, Row>

  datatype Option<T> = None | Some(value: T)

  /** The outcome of an operation that can throw: the exception's name on failure. */
  datatype Result<T> = Ok(value: T) | Err(error: string)
  {
    predicate IsFailure() { Err? }

    function PropagateFailure<U>(): Result<U>
      requires Err?
    {
      Err(error)
    }

    function Extract(): T
      requires Ok?
    {
      value
    }
  }

  datatype Expense = Expense(borrower: Id, lender: Id, amount: int)

  /** The debt graph: `fwd` maps borrower to (lender to amount), `rev` maps
      lender to (borrower to amount). */
  datatype Graph = Graph(fwd: Index, rev: Index)

  const Empty: Graph := Graph(map[], map[])

  /** The row of `k`, or an empty row when `k` has none. */
  function RowOf(m: Index, k: Id): Row
  {
    if k in m then m[k] else map[]
  }

  /** Give `k` an empty row unless it already has one: the row of `k` is
      assigned its own value, or an empty row when it has none. */
  function Touch(m: Index, k: Id): (r: Index)
    ensures r.Keys == m.Keys + {k}
    ensures forall j :: RowOf(r, j) == RowOf(m, j)
  {
    m[k := RowOf(m, k)]
  }

  predicate HasEdge(m: Index, a: Id, b: Id)
  {
    a in m && b in m[a]
  }

  /** The amount stored for a -> b, 0 when there is no such entry. */
  function Amt(m: Index, a: Id, b: Id): int
  {
    if a in m && b in m[a] then m[a][b] else 0
  }

  /** Forward and reverse index describe the same edges with the same amounts. */
  ghost predicate Agree(g: Graph)
  {
    && (forall a, b :: HasEdge(g.fwd, a, b) ==> HasEdge(g.rev, b, a) && g.rev[b][a] == g.fwd[a][b])
    && (forall a, b :: HasEdge(g.rev, b, a) ==> HasEdge(g.fwd, a, b))
  }

  /** Every stored amount is strictly positive. */
  ghost predicate Positive(g: Graph)
  {
    forall a, b :: a in g.fwd && b in g.fwd[a] ==> g.fwd[a][b] > 0
  }

  /** No node owes itself. */
  ghost predicate NoSelfLoop(g: Graph)
  {
    forall a :: a in g.fwd ==> a !in g.fwd[a]
  }

  /** Write amount `v` for b -> l into both indices, creating rows as needed. */
  function Put(g: Graph, b: Id, l: Id, v: int): (r: Graph)
    ensures r.fwd.Keys == g.fwd.Keys + {b} && r.rev.Keys == g.rev.Keys + {l}
    ensures HasEdge(r.fwd, b, l) && r.fwd[b][l] == v
    ensures HasEdge(r.rev, l, b) && r.rev[l][b] == v
    ensures forall p, q :: p != b || q != l ==> HasEdge(r.fwd, p, q) == HasEdge(g.fwd, p, q) && Amt(r.fwd, p, q) == Amt(g.fwd, p, q)
    ensures forall p, q :: p != b || q != l ==> HasEdge(r.rev, q, p) == HasEdge(g.rev, q, p) && Amt(r.rev, q, p) == Amt(g.rev, q, p)
  {
    Graph(g.fwd[b := RowOf(g.fwd, b)[l := v]], g.rev[l := RowOf(g.rev, l)[b := v]])
  }

  /** Delete b -> l from both indices (a missing entry is left alone). */
  function Del(g: Graph, b: Id, l: Id): (r: Graph)
    ensures r.fwd.Keys == g.fwd.Keys + {b} && r.rev.Keys == g.rev.Keys + {l}
    ensures !HasEdge(r.fwd, b, l) && !HasEdge(r.rev, l, b)
    ensures forall p, q :: p != b || q != l ==> HasEdge(r.fwd, p, q) == HasEdge(g.fwd, p, q) && Amt(r.fwd, p, q) == Amt(g.fwd, p, q)
    ensures forall p, q :: p != b || q != l ==> HasEdge(r.rev, q, p) == HasEdge(g.rev, q, p) && Amt(r.rev, q, p) == Amt(g.rev, q, p)
  {
    Graph(g.fwd[b := RowOf(g.fwd, b) - {l}], g.rev[l := RowOf(g.rev, l) - {b}])
  }

  // ---------------------------------------------------------------------------
  // Sums over rows

  ghost function Pick(s: set<Id>): (k: Id)
    requires s != {}
    ensures k in s
  {
    var k :| k in s; k
  }

  function GetOr(r: Row, k: Id): int
  {
    if k in r then r[k] else 0
  }

  /** The sum of all amounts of a row. */
  ghost function Sum(r: Row): int
    decreases |r|
  {
    if r == map[] then 0
    else
      var k := Pick(r.Keys);
      assert |r - {k}| < |r| by { assert (r - {k}).Keys == r.Keys - {k}; }
      r[k] + Sum(r - {k})
  }

  lemma {:induction false} SumRemove(r: Row, k: Id)
    requires k in r
    ensures Sum(r) == r[k] + Sum(r - {k})
    decreases |r|
  {
    var j := Pick(r.Keys);
    if j != k {
      var rj, rk := r - {j}, r - {k};
      assert (rj - {k}).Keys == r.Keys - {j, k};
      assert |rj| < |r| && |rk| < |r| by { assert rj.Keys == r.Keys - {j}; assert rk.Keys == r.Keys - {k}; }
      SumRemove(rj, k);
      SumRemove(rk, j);
      assert rj - {k} == rk - {j};
    }
  }

  lemma SumDelete(r: Row, k: Id)
    ensures Sum(r - {k}) == Sum(r) - GetOr(r, k)
  {
    if k in r {
      SumRemove(r, k);
    } else {
      assert r - {k} == r;
    }
  }

  lemma SumUpdate(r: Row, k: Id, v: int)
    ensures Sum(r[k := v]) == Sum(r) - GetOr(r, k) + v
  {
    SumRemove(r[k := v], k);
    assert r[k := v] - {k} == r - {k};
    SumDelete(r, k);
  }

  lemma {:induction false} SumNonNegative(r: Row)
    requires forall k :: k in r ==> r[k] >= 0
    ensures Sum(r) >= 0
    decreases |r|
  {
    if r != map[] {
      var k := Pick(r.Keys);
      assert |r - {k}| < |r| by { assert (r - {k}).Keys == r.Keys - {k}; }
      SumNonNegative(r - {k});
    }
  }

  // ---------------------------------------------------------------------------
  // Net position and total weight

  /** What `n` owes in total minus what `n` is owed in total. */
  ghost function Net(g: Graph, n: Id): int
  {
    Sum(RowOf(g.fwd, n)) - Sum(RowOf(g.rev, n))
  }

  ghost function RowSums(m: Index): (s: Row)
    ensures s.Keys == m.Keys
  {
    map k | k in m :: Sum(m[k])
  }

  /** The sum of every amount in an index. */
  ghost function Weight(m: Index): int
  {
    Sum(RowSums(m))
  }

  lemma WeightUpdate(m: Index, k: Id, row: Row)
    ensures Weight(m[k := row]) == Weight(m) - Sum(RowOf(m, k)) + Sum(row)
  {
    assert RowSums(m[k := row]) == RowSums(m)[k := Sum(row)];
    SumUpdate(RowSums(m), k, Sum(row));
    if k !in m {
      assert Sum(RowOf(m, k)) == 0;
    }
  }

  lemma WeightNonNegative(g: Graph)
    requires Positive(g)
    ensures Weight(g.fwd) >= 0
  {
    forall k | k in g.fwd ensures Sum(g.fwd[k]) >= 0 {
      SumNonNegative(g.fwd[k]);
    }
    SumNonNegative(RowSums(g.fwd));
  }

  /** The paired write and the paired delete keep the indices in agreement. */
  lemma PutAgree(g: Graph, b: Id, l: Id, v: int)
    requires Agree(g)
    ensures Agree(Put(g, b, l, v))
  {
  }

  lemma DelAgree(g: Graph, b: Id, l: Id)
    requires Agree(g)
    ensures Agree(Del(g, b, l))
  {
  }

  /** Writing a positive amount, or deleting, keeps every amount positive. */
  lemma PutPositive(g: Graph, b: Id, l: Id, v: int)
    requires Positive(g) && v > 0
    ensures Positive(Put(g, b, l, v))
  {
  }

  lemma DelPositive(g: Graph, b: Id, l: Id)
    requires Positive(g)
    ensures Positive(Del(g, b, l))
  {
  }

  /** Writing an edge between two distinct nodes, or deleting, creates no self-loop. */
  lemma PutNoSelfLoop(g: Graph, b: Id, l: Id, v: int)
    requires NoSelfLoop(g) && b != l
    ensures NoSelfLoop(Put(g, b, l, v))
  {
    var r := Put(g, b, l, v);
    forall a | a in r.fwd ensures a !in r.fwd[a] {
      assert !HasEdge(r.fwd, a, a);
    }
  }

  lemma DelNoSelfLoop(g: Graph, b: Id, l: Id)
    requires NoSelfLoop(g)
    ensures NoSelfLoop(Del(g, b, l))
  {
  }

  lemma PutWeight(g: Graph, b: Id, l: Id, v: int)
    ensures Weight(Put(g, b, l, v).fwd) == Weight(g.fwd) - Amt(g.fwd, b, l) + v
  {
    SumUpdate(RowOf(g.fwd, b), l, v);
    WeightUpdate(g.fwd, b, RowOf(g.fwd, b)[l := v]);
  }

  lemma DelWeight(g: Graph, b: Id, l: Id)
    ensures Weight(Del(g, b, l).fwd) == Weight(g.fwd) - Amt(g.fwd, b, l)
  {
    SumDelete(RowOf(g.fwd, b), l);
    WeightUpdate(g.fwd, b, RowOf(g.fwd, b) - {l});
  }

  /** A paired write of `v` moves d = v - (old amount) of debt: b owes d more, l is owed d more. */
  lemma PutNet(g: Graph, b: Id, l: Id, v: int, n: Id)
    requires Agree(g)
    ensures var d := v - Amt(g.fwd, b, l);
      Net(Put(g, b, l, v), n) == Net(g, n) + (if n == b then d else 0) - (if n == l then d else 0)
  {
    var r := Put(g, b, l, v);
    RevMirrorsFwd(g, b, l);
    if n == b {
      assert RowOf(r.fwd, n) == RowOf(g.fwd, b)[l := v];
      SumUpdate(RowOf(g.fwd, b), l, v);
    } else {
      assert RowOf(r.fwd, n) == RowOf(g.fwd, n);
    }
    if n == l {
      assert RowOf(r.rev, n) == RowOf(g.rev, l)[b := v];
      SumUpdate(RowOf(g.rev, l), b, v);
    } else {
      assert RowOf(r.rev, n) == RowOf(g.rev, n);
    }
  }

  /** A paired delete cancels the amount of b -> l at both of its ends. */
  lemma DelNet(g: Graph, b: Id, l: Id, n: Id)
    requires Agree(g)
    ensures var a := Amt(g.fwd, b, l);
      Net(Del(g, b, l), n) == Net(g, n) - (if n == b then a else 0) + (if n == l then a else 0)
  {
    var r := Del(g, b, l);
    RevMirrorsFwd(g, b, l);
    if n == b {
      assert RowOf(r.fwd, n) == RowOf(g.fwd, b) - {l};
      SumDelete(RowOf(g.fwd, b), l);
    } else {
      assert RowOf(r.fwd, n) == RowOf(g.fwd, n);
    }
    if n == l {
      assert RowOf(r.rev, n) == RowOf(g.rev, l) - {b};
      SumDelete(RowOf(g.rev, l), b);
    } else {
      assert RowOf(r.rev, n) == RowOf(g.rev, n);
    }
  }

  lemma RevMirrorsFwd(g: Graph, b: Id, l: Id)
    requires Agree(g)
    ensures GetOr(RowOf(g.rev, l), b) == Amt(g.fwd, b, l)
  {
    if HasEdge(g.fwd, b, l) {
      assert g.rev[l][b] == g.fwd[b][l];
    } else {
      assert !HasEdge(g.rev, l, b);
    }
  }
}
