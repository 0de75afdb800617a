/**
 The Python proof of concept of the settlement graph, scripts/main.py.

 Its two indices are `mdefaultdict`s: reading a missing outer key gives that
 key an empty row, reading a missing inner key yields 0 without storing it.
 `del` of a missing entry raises KeyError. The forward index only ever gets
 rows for nodes that were read in it (borrowers, and whatever the netting
 reads), the reverse index for lenders and nodes traverse reads there, so
 the two key sets differ; `Square` fills in the missing empty rows, and the
 consolidation of the proof of concept is then the canonical one.
 */
module PySettlement {
  import opened Ledger
  import opened Settlement

  /** What the Python traversal keeps: agreeing indices, positive amounts, no self-loop. */
  ghost predicate PyClean(g: Graph)
  {
    Agree(g) && Positive(g) && NoSelfLoop(g)
  }

  // ---------------------------------------------------------------------------
  // __build_graph

  /** One expense of __build_graph: `graph[b][l] += amount` reads a missing
      amount as 0 and gives b a forward row; `flipped[l][b] = graph[b][l]`
      copies the sum into the reverse index, giving l a reverse row. */
  function PyRecord(g: Graph, e: Expense): Graph
  {
    Put(g, e.borrower, e.lender, Amt(g.fwd, e.borrower, e.lender) + e.amount)
  }

  /** PyRecord as the two row writes __build_graph performs. */
  lemma PyRecordWrites(g: Graph, e: Expense)
    ensures var sum := GetOr(RowOf(g.fwd, e.borrower), e.lender) + e.amount;
      PyRecord(g, e) == Graph(g.fwd[e.borrower := RowOf(g.fwd, e.borrower)[e.lender := sum]],
                              g.rev[e.lender := RowOf(g.rev, e.lender)[e.borrower := sum]])
  {
  }

  function PyBuild(es: seq<Expense>): Graph
    decreases |es|
  {
    if es == [] then Empty else PyRecord(PyBuild(es[..|es| - 1]), es[|es| - 1])
  }

  function Borrowers(es: seq<Expense>): set<Id>
    decreases |es|
  {
    if es == [] then {} else Borrowers(es[..|es| - 1]) + {es[|es| - 1].borrower}
  }

  function Lenders(es: seq<Expense>): set<Id>
    decreases |es|
  {
    if es == [] then {} else Lenders(es[..|es| - 1]) + {es[|es| - 1].lender}
  }

  /** The sum of the amounts of every expense from b to l. */
  function Total(es: seq<Expense>, b: Id, l: Id): int
    decreases |es|
  {
    if es == [] then 0
    else Total(es[..|es| - 1], b, l) + (if es[|es| - 1].borrower == b && es[|es| - 1].lender == l then es[|es| - 1].amount else 0)
  }

  /** What `n` borrowed in `es` minus what `n` lent. */
  function NetOf(es: seq<Expense>, n: Id): int
    decreases |es|
  {
    if es == [] then 0
    else
      var e := es[|es| - 1];
      NetOf(es[..|es| - 1], n) + (if e.borrower == n then e.amount else 0) - (if e.lender == n then e.amount else 0)
  }

  lemma PyBuildStep(es: seq<Expense>, i: nat)
    requires i < |es|
    ensures PyBuild(es[..i + 1]) == PyRecord(PyBuild(es[..i]), es[i])
  {
    assert es[..i + 1][..i] == es[..i];
  }

  /** The indices agree; the forward index has a row for each borrower, the
      reverse index one for each lender. */
  lemma {:induction false} PyBuildShape(es: seq<Expense>)
    ensures Agree(PyBuild(es))
    ensures PyBuild(es).fwd.Keys == Borrowers(es) && PyBuild(es).rev.Keys == Lenders(es)
    decreases |es|
  {
    if es != [] {
      var p := es[..|es| - 1];
      var e := es[|es| - 1];
      var g := PyBuild(p);
      var v := Amt(g.fwd, e.borrower, e.lender) + e.amount;
      assert PyBuild(es) == Put(g, e.borrower, e.lender, v);
      PyBuildShape(p);
      PutAgree(g, e.borrower, e.lender, v);
    }
  }

  /** Duplicates accumulate: each edge carries the sum of the amounts of
      every expense for its pair, and an edge exists exactly for the pairs
      that have an expense. */
  lemma {:induction false} PyBuildTotals(es: seq<Expense>, b: Id, l: Id)
    ensures Amt(PyBuild(es).fwd, b, l) == Total(es, b, l)
    ensures HasEdge(PyBuild(es).fwd, b, l) <==> exists i :: 0 <= i < |es| && es[i].borrower == b && es[i].lender == l
    decreases |es|
  {
    if es != [] {
      var p := es[..|es| - 1];
      var e := es[|es| - 1];
      PyBuildTotals(p, b, l);
      if e.borrower == b && e.lender == l {
        assert es[|es| - 1].borrower == b && es[|es| - 1].lender == l;
      } else {
        if exists i :: 0 <= i < |es| && es[i].borrower == b && es[i].lender == l {
          var i :| 0 <= i < |es| && es[i].borrower == b && es[i].lender == l;
          assert i < |p| && p[i] == es[i];
        }
        forall i | 0 <= i < |p| && p[i].borrower == b && p[i].lender == l
          ensures es[i].borrower == b && es[i].lender == l
        {
          assert p[i] == es[i];
        }
      }
    }
  }

  /** The graph records every expense's debt: each party's net position is
      what it borrowed minus what it lent. */
  lemma {:induction false} PyBuildNet(es: seq<Expense>, n: Id)
    ensures Net(PyBuild(es), n) == NetOf(es, n)
    decreases |es|
  {
    if es != [] {
      var p := es[..|es| - 1];
      var e := es[|es| - 1];
      var g := PyBuild(p);
      var v := Amt(g.fwd, e.borrower, e.lender) + e.amount;
      assert PyBuild(es) == Put(g, e.borrower, e.lender, v);
      PyBuildNet(p, n);
      PyBuildShape(p);
      PutNet(g, e.borrower, e.lender, v, n);
    }
  }

  /** Positive amounts and no expense of a party to itself give a graph the
      traversal accepts. */
  lemma {:induction false} PyBuildClean(es: seq<Expense>)
    requires forall e :: e in es ==> e.amount > 0 && e.borrower != e.lender
    ensures PyClean(PyBuild(es))
    decreases |es|
  {
    PyBuildShape(es);
    if es != [] {
      var p := es[..|es| - 1];
      var e := es[|es| - 1];
      assert forall x :: x in p ==> x in es;
      PyBuildClean(p);
      var g := PyBuild(p);
      assert Amt(g.fwd, e.borrower, e.lender) >= 0;
      PutPositive(g, e.borrower, e.lender, Amt(g.fwd, e.borrower, e.lender) + e.amount);
      PutNoSelfLoop(g, e.borrower, e.lender, Amt(g.fwd, e.borrower, e.lender) + e.amount);
    }
  }

  // ---------------------------------------------------------------------------
  // __prune_edge, __reset_edge_amount, __prune_bideractional_edge, __process_triplet

  /** No row is ever removed: an mdefaultdict only gains keys. */
  predicate Grows(g: Graph, h: Graph)
  {
    g.fwd.Keys <= h.fwd.Keys && g.rev.Keys <= h.rev.Keys
  }

  /** __prune_edge: `del` on both indices; a missing entry in either raises KeyError. */
  function PyPrune(g: Graph, b: Id, l: Id): (r: Result<Graph>)
    ensures r.Ok? <==> HasEdge(g.fwd, b, l) && HasEdge(g.rev, l, b)
    ensures r.Ok? ==> Grows(g, r.value)
  {
    if HasEdge(g.fwd, b, l) && HasEdge(g.rev, l, b) then Ok(Del(g, b, l)) else Err("KeyError")
  }

  /** __reset_edge_amount: 0 prunes the edge, any other amount is written to both indices. */
  function PyReset(g: Graph, b: Id, l: Id, v: int): (r: Result<Graph>)
    ensures r.Err? <==> v == 0 && !(HasEdge(g.fwd, b, l) && HasEdge(g.rev, l, b))
    ensures r.Ok? ==> Grows(g, r.value)
  {
    if v == 0 then PyPrune(g, b, l) else Ok(Put(g, b, l, v))
  }

  /** Python's `abs`. */
  function Abs(x: int): (r: nat)
    ensures r == x || r == -x
  {
    if x < 0 then -x else x
  }

  /** The graph after reading `graph[k]`: k gets an empty forward row if it has none. */
  function ReadFwd(g: Graph, k: Id): Graph
  {
    Graph(Touch(g.fwd, k), g.rev)
  }

  /** __prune_bideractional_edge: `not graph[a][c] or not graph[c][a]` reads
      graph[a], and graph[c] only when the first amount is truthy; a missing
      amount reads as 0, which is falsy. Equal amounts prune both edges. */
  function PyCancel(g: Graph, a: Id, c: Id): (r: Result<Graph>)
    ensures r.Ok? ==> Grows(g, r.value)
  {
    var g1 := ReadFwd(g, a);
    if Amt(g1.fwd, a, c) == 0 then Ok(g1)
    else
      var g2 := ReadFwd(g1, c);
      if Amt(g2.fwd, c, a) == 0 then Ok(g2) else PyNetPair(g2, a, c)
  }

  /** The netting part of __prune_bideractional_edge, once both amounts are
      truthy: equal amounts prune both edges, otherwise the smaller edge is
      pruned and the difference is written onto the larger. */
  function PyNetPair(g: Graph, a: Id, c: Id): (r: Result<Graph>)
    ensures r.Ok? ==> Grows(g, r.value)
  {
    var diff := Amt(g.fwd, a, c) - Amt(g.fwd, c, a);
    if diff == 0 then
      var g3 :- PyPrune(g, a, c);
      PyPrune(g3, c, a)
    else if diff > 0 then
      var g3 :- PyPrune(g, c, a);
      PyReset(g3, a, c, diff)
    else
      var g3 :- PyPrune(g, a, c);
      PyReset(g3, c, a, Abs(diff))
  }

  /** `cost_diff` of __process_triplet: b -> l minus l -> ll, missing amounts read as 0. */
  function PyCostDiff(g: Graph, b: Id, l: Id, ll: Id): int
  {
    Amt(g.fwd, b, l) - Amt(g.fwd, l, ll)
  }

  /** The amount __process_triplet writes onto b -> ll: its old amount plus
      l -> ll when costDiff >= 0, plus b -> l otherwise. */
  function PyMerged(g: Graph, b: Id, l: Id, ll: Id): int
  {
    if PyCostDiff(g, b, l, ll) >= 0 then Amt(g.fwd, b, ll) + Amt(g.fwd, l, ll) else Amt(g.fwd, b, ll) + Amt(g.fwd, b, l)
  }

  /** __process_triplet for the chain b -> l -> ll: `cost_diff` reads
      graph[b] and graph[l]; the smaller chain edge is added onto b -> ll,
      which is netted against ll -> b, and the residual is kept. */
  function PyTriplet(g: Graph, b: Id, l: Id, ll: Id): (r: Result<Graph>)
    ensures r.Ok? ==> Grows(g, r.value)
  {
    var g1 := ReadFwd(ReadFwd(g, b), l);
    var g2 :- PyReset(g1, b, ll, PyMerged(g1, b, l, ll));
    var g3 :- PyCancel(g2, b, ll);
    PyResidual(g3, b, l, ll, PyCostDiff(g1, b, l, ll))
  }

  /** The last two steps of __process_triplet: the residual stays on b -> l
      and l -> ll is pruned when costDiff >= 0; otherwise it moves to l -> ll
      and b -> l is pruned. */
  function PyResidual(g: Graph, b: Id, l: Id, ll: Id, costDiff: int): (r: Result<Graph>)
    ensures r.Ok? ==> Grows(g, r.value)
  {
    if costDiff >= 0 then
      match PyReset(g, b, l, costDiff)
      case Err(e) => Err(e)
      case Ok(g4) => PyPrune(g4, l, ll)
    else
      match PyReset(g, l, ll, Abs(costDiff))
      case Err(e) => Err(e)
      case Ok(g4) => PyPrune(g4, b, l)
  }

  lemma NetPairEqual(g: Graph, a: Id, c: Id, g3: Graph)
    requires Amt(g.fwd, a, c) == Amt(g.fwd, c, a) && PyPrune(g, a, c) == Ok(g3)
    ensures PyNetPair(g, a, c) == PyPrune(g3, c, a)
  {
  }

  lemma NetPairFirst(g: Graph, a: Id, c: Id, g3: Graph)
    requires Amt(g.fwd, a, c) > Amt(g.fwd, c, a) && PyPrune(g, c, a) == Ok(g3)
    ensures PyNetPair(g, a, c) == PyReset(g3, a, c, Amt(g.fwd, a, c) - Amt(g.fwd, c, a))
  {
  }

  lemma NetPairSecond(g: Graph, a: Id, c: Id, g3: Graph)
    requires Amt(g.fwd, a, c) < Amt(g.fwd, c, a) && PyPrune(g, a, c) == Ok(g3)
    ensures PyNetPair(g, a, c) == PyReset(g3, c, a, Abs(Amt(g.fwd, a, c) - Amt(g.fwd, c, a)))
  {
  }

  // ---------------------------------------------------------------------------
  // The squared graph

  function Nodes(g: Graph): set<Id>
  {
    g.fwd.Keys + g.rev.Keys
  }

  /** `m` with an empty row for every identity of `ks` that has none. */
  function Fill(m: Index, ks: set<Id>): (r: Index)
    ensures r.Keys == m.Keys + ks
    ensures forall k :: RowOf(r, k) == RowOf(m, k)
  {
    map k | k in m.Keys + ks :: RowOf(m, k)
  }

  /** The graph with a row in both indices for every identity that has a row in either. */
  function Square(g: Graph): (s: Graph)
    ensures s.fwd.Keys == Nodes(g) && s.rev.Keys == Nodes(g)
  {
    Graph(Fill(g.fwd, Nodes(g)), Fill(g.rev, Nodes(g)))
  }

  /** Filling in empty rows changes no edge. */
  lemma SquareEdges(g: Graph)
    ensures forall p, q :: HasEdge(Square(g).fwd, p, q) == HasEdge(g.fwd, p, q) && Amt(Square(g).fwd, p, q) == Amt(g.fwd, p, q)
    ensures forall p, q :: HasEdge(Square(g).rev, p, q) == HasEdge(g.rev, p, q) && Amt(Square(g).rev, p, q) == Amt(g.rev, p, q)
  {
    var s := Square(g);
    forall p, q ensures HasEdge(s.fwd, p, q) == HasEdge(g.fwd, p, q) && Amt(s.fwd, p, q) == Amt(g.fwd, p, q) {
      assert RowOf(s.fwd, p) == RowOf(g.fwd, p);
    }
    forall p, q ensures HasEdge(s.rev, p, q) == HasEdge(g.rev, p, q) && Amt(s.rev, p, q) == Amt(g.rev, p, q) {
      assert RowOf(s.rev, p) == RowOf(g.rev, p);
    }
  }

  lemma SquareAt(g: Graph, p: Id, q: Id)
    ensures HasEdge(Square(g).fwd, p, q) == HasEdge(g.fwd, p, q) && Amt(Square(g).fwd, p, q) == Amt(g.fwd, p, q)
  {
    assert RowOf(Square(g).fwd, p) == RowOf(g.fwd, p);
  }

  /** The squared graph is clean, with equal key sets, exactly when the Python graph is clean. */
  lemma SquareClean(g: Graph)
    ensures Clean(Square(g)) <==> PyClean(g)
  {
    var s := Square(g);
    SquareEdges(g);
    if PyClean(g) {
      forall a, b | HasEdge(s.fwd, a, b) ensures HasEdge(s.rev, b, a) && s.rev[b][a] == s.fwd[a][b] {
        assert HasEdge(g.fwd, a, b);
      }
      forall a, b | HasEdge(s.rev, b, a) ensures HasEdge(s.fwd, a, b) {
        assert HasEdge(g.rev, b, a);
      }
      forall a, b | HasEdge(s.fwd, a, b) ensures s.fwd[a][b] > 0 {
        assert HasEdge(g.fwd, a, b);
      }
      forall a | a in s.fwd ensures a !in s.fwd[a] {
        assert !HasEdge(g.fwd, a, a);
      }
    }
    if Clean(s) {
      forall a, b | HasEdge(g.fwd, a, b) ensures HasEdge(g.rev, b, a) && g.rev[b][a] == g.fwd[a][b] {
        assert HasEdge(s.fwd, a, b);
      }
      forall a, b | HasEdge(g.rev, b, a) ensures HasEdge(g.fwd, a, b) {
        assert HasEdge(s.rev, b, a);
      }
      forall a, b | HasEdge(g.fwd, a, b) ensures g.fwd[a][b] > 0 {
        assert HasEdge(s.fwd, a, b);
      }
      forall a | a in g.fwd ensures a !in g.fwd[a] {
        assert !HasEdge(s.fwd, a, a);
      }
    }
  }

  lemma SquareNet(g: Graph, n: Id)
    ensures Net(Square(g), n) == Net(g, n)
  {
    assert RowOf(Square(g).fwd, n) == RowOf(g.fwd, n) && RowOf(Square(g).rev, n) == RowOf(g.rev, n);
  }

  /** Empty rows add nothing to the total weight. */
  lemma {:induction false} FillWeight(m: Index, ks: set<Id>)
    ensures Weight(Fill(m, ks)) == Weight(m)
    decreases ks
  {
    if ks == {} {
      assert Fill(m, ks) == m;
    } else {
      var k := Pick(ks);
      var rest := Fill(m, ks - {k});
      FillWeight(m, ks - {k});
      assert Fill(m, ks) == rest[k := RowOf(m, k)];
      WeightUpdate(rest, k, RowOf(m, k));
      assert RowOf(rest, k) == RowOf(m, k);
    }
  }

  lemma SquareWeight(g: Graph)
    ensures Weight(Square(g).fwd) == Weight(g.fwd)
  {
    FillWeight(g.fwd, Nodes(g));
  }

  /** Filling in rows commutes with replacing one row. */
  lemma FillUpdate(m: Index, ks: set<Id>, k: Id, row: Row)
    requires k in m.Keys + ks
    ensures Fill(m[k := row], ks) == Fill(m, ks)[k := row]
  {
    var x, y := Fill(m[k := row], ks), Fill(m, ks)[k := row];
    assert x.Keys == y.Keys;
    forall j | j in x.Keys ensures x[j] == y[j] {
      assert RowOf(x, j) == RowOf(m[k := row], j);
    }
  }

  /** The paired write commutes with filling in rows. */
  lemma SquarePut(g: Graph, b: Id, l: Id, v: int)
    requires b in Nodes(g) && l in Nodes(g)
    ensures Nodes(Put(g, b, l, v)) == Nodes(g)
    ensures Square(Put(g, b, l, v)) == Put(Square(g), b, l, v)
  {
    var r, s := Put(g, b, l, v), Square(g);
    assert Nodes(r) == Nodes(g);
    FillUpdate(g.fwd, Nodes(g), b, RowOf(g.fwd, b)[l := v]);
    FillUpdate(g.rev, Nodes(g), l, RowOf(g.rev, l)[b := v]);
    assert RowOf(s.fwd, b) == RowOf(g.fwd, b) && RowOf(s.rev, l) == RowOf(g.rev, l);
  }

  /** The paired delete commutes with filling in rows. */
  lemma SquareDel(g: Graph, b: Id, l: Id)
    requires b in Nodes(g) && l in Nodes(g)
    ensures Nodes(Del(g, b, l)) == Nodes(g)
    ensures Square(Del(g, b, l)) == Del(Square(g), b, l)
  {
    var r, s := Del(g, b, l), Square(g);
    assert Nodes(r) == Nodes(g);
    FillUpdate(g.fwd, Nodes(g), b, RowOf(g.fwd, b) - {l});
    FillUpdate(g.rev, Nodes(g), l, RowOf(g.rev, l) - {b});
    assert RowOf(s.fwd, b) == RowOf(g.fwd, b) && RowOf(s.rev, l) == RowOf(g.rev, l);
  }

  /** Reading a node's forward row changes nothing the squared graph shows. */
  lemma SquareReadFwd(g: Graph, k: Id)
    requires k in Nodes(g)
    ensures Nodes(ReadFwd(g, k)) == Nodes(g)
    ensures Square(ReadFwd(g, k)) == Square(g)
    ensures Agree(g) ==> Agree(ReadFwd(g, k))
  {
    var r := ReadFwd(g, k);
    assert Nodes(r) == Nodes(g);
    forall j | j in Nodes(g) ensures Square(r).fwd[j] == Square(g).fwd[j] {
      assert RowOf(Square(r).fwd, j) == RowOf(r.fwd, j);
    }
    if Agree(g) {
      forall p, q | HasEdge(r.fwd, p, q) ensures HasEdge(r.rev, q, p) && r.rev[q][p] == r.fwd[p][q] {
        assert RowOf(r.fwd, p) == RowOf(g.fwd, p);
      }
      forall p, q | HasEdge(r.rev, q, p) ensures HasEdge(r.fwd, p, q) {
        assert RowOf(r.fwd, p) == RowOf(g.fwd, p);
      }
    }
  }

  // ---------------------------------------------------------------------------
  // The proof of concept computes the canonical consolidation

  /** A reset that cannot hit a missing entry succeeds, and is the canonical reset. */
  lemma PyResetSquare(g: Graph, b: Id, l: Id, v: int)
    requires Agree(g) && b in Nodes(g) && l in Nodes(g) && (v != 0 || HasEdge(g.fwd, b, l))
    ensures PyReset(g, b, l, v).Ok?
    ensures Agree(PyReset(g, b, l, v).value) && Nodes(PyReset(g, b, l, v).value) == Nodes(g)
    ensures Square(PyReset(g, b, l, v).value) == Reset(Square(g), b, l, v)
  {
    if v == 0 {
      assert HasEdge(g.rev, l, b);
      DelAgree(g, b, l);
      SquareDel(g, b, l);
    } else {
      PutAgree(g, b, l, v);
      SquarePut(g, b, l, v);
    }
  }

  /** Netting two distinct nodes succeeds, and is the canonical netting. */
  lemma PyCancelSquare(g: Graph, a: Id, c: Id)
    requires Agree(g) && a in Nodes(g) && c in Nodes(g) && a != c
    ensures PyCancel(g, a, c).Ok?
    ensures Agree(PyCancel(g, a, c).value) && Nodes(PyCancel(g, a, c).value) == Nodes(g)
    ensures Square(PyCancel(g, a, c).value) == Cancel(Square(g), a, c)
  {
    var s := Square(g);
    SquareEdges(g);
    var g1 := ReadFwd(g, a);
    SquareReadFwd(g, a);
    if Amt(g1.fwd, a, c) == 0 {
      assert Amt(s.fwd, a, c) == 0;
      assert !Truthy(s.fwd, a, c);
    } else {
      var g2 := ReadFwd(g1, c);
      SquareReadFwd(g1, c);
      if Amt(g2.fwd, c, a) == 0 {
        assert Amt(s.fwd, c, a) == 0;
        assert !Truthy(s.fwd, c, a);
      } else {
        assert Truthy(s.fwd, a, c) && Truthy(s.fwd, c, a);
        PyNetPairSquare(g2, a, c);
        assert Square(g2) == s;
      }
    }
  }

  lemma PyNetPairSquare(g: Graph, a: Id, c: Id)
    requires Agree(g) && a in Nodes(g) && c in Nodes(g) && a != c
    requires Amt(g.fwd, a, c) != 0 && Amt(g.fwd, c, a) != 0
    ensures PyNetPair(g, a, c).Ok?
    ensures Agree(PyNetPair(g, a, c).value) && Nodes(PyNetPair(g, a, c).value) == Nodes(g)
    ensures Square(PyNetPair(g, a, c).value) == Cancel(Square(g), a, c)
  {
    var s := Square(g);
    SquareAt(g, a, c);
    SquareAt(g, c, a);
    assert Truthy(s.fwd, a, c) && Truthy(s.fwd, c, a);
    var diff := Amt(g.fwd, a, c) - Amt(g.fwd, c, a);
    assert diff == s.fwd[a][c] - s.fwd[c][a];
    if diff == 0 {
      assert HasEdge(g.rev, c, a);
      var g3 := Del(g, a, c);
      DelAgree(g, a, c);
      SquareDel(g, a, c);
      assert HasEdge(g3.fwd, c, a) && HasEdge(g3.rev, a, c);
      DelAgree(g3, c, a);
      SquareDel(g3, c, a);
      assert Cancel(s, a, c) == Del(Del(s, a, c), c, a);
    } else if diff > 0 {
      assert HasEdge(g.rev, a, c);
      var g3 := Del(g, c, a);
      DelAgree(g, c, a);
      SquareDel(g, c, a);
      PyResetSquare(g3, a, c, diff);
      assert Cancel(s, a, c) == Reset(Del(s, c, a), a, c, diff);
    } else {
      assert HasEdge(g.rev, c, a);
      var g3 := Del(g, a, c);
      DelAgree(g, a, c);
      SquareDel(g, a, c);
      assert Abs(diff) == Flip(diff);
      PyResetSquare(g3, c, a, Abs(diff));
      assert Cancel(s, a, c) == Reset(Del(s, a, c), c, a, Flip(diff));
    }
  }

  /** Keeping the residual of a chain succeeds, and is the canonical residual. */
  lemma PyResidualSquare(g: Graph, b: Id, l: Id, ll: Id, c: int)
    requires Agree(g) && HasEdge(g.fwd, b, l) && HasEdge(g.fwd, l, ll) && b != l && l != ll
    requires b in Nodes(g) && l in Nodes(g) && ll in Nodes(g)
    ensures PyResidual(g, b, l, ll, c).Ok?
    ensures Nodes(PyResidual(g, b, l, ll, c).value) == Nodes(g)
    ensures Square(PyResidual(g, b, l, ll, c).value) == Residual(Square(g), b, l, ll, c)
  {
    var s := Square(g);
    ResidualBranches(s, b, l, ll, c);
    if c >= 0 {
      PyResetSquare(g, b, l, c);
      var g4 := PyReset(g, b, l, c).value;
      assert HasEdge(g4.fwd, l, ll) by {
        SquareEdges(g);
        SquareEdges(g4);
        assert HasEdge(Reset(s, b, l, c).fwd, l, ll);
      }
      assert HasEdge(g4.rev, ll, l);
      SquareDel(g4, l, ll);
    } else {
      assert Abs(c) == Flip(c);
      PyResetSquare(g, l, ll, Abs(c));
      var g4 := PyReset(g, l, ll, Abs(c)).value;
      assert HasEdge(g4.fwd, b, l) by {
        SquareEdges(g);
        SquareEdges(g4);
        assert HasEdge(Reset(s, l, ll, Flip(c)).fwd, b, l);
      }
      assert HasEdge(g4.rev, l, b);
      SquareDel(g4, b, l);
    }
  }

  /** The first two steps of __process_triplet on a chain whose ends differ
      succeed, and are the canonical merge and netting. */
  lemma PyNettedSquare(g: Graph, b: Id, l: Id, ll: Id)
    requires PyClean(g) && HasEdge(g.fwd, b, l) && HasEdge(g.fwd, l, ll) && b != ll
    ensures Chain(Square(g), b, l, ll)
    ensures PyReset(g, b, ll, Merged(Square(g), b, l, ll)).Ok?
    ensures var g2 := PyReset(g, b, ll, Merged(Square(g), b, l, ll)).value;
      && PyCancel(g2, b, ll).Ok?
      && Agree(PyCancel(g2, b, ll).value) && Nodes(PyCancel(g2, b, ll).value) == Nodes(g)
      && Square(PyCancel(g2, b, ll).value) == Cancel(Merge(Square(g), b, l, ll), b, ll)
  {
    var s := Square(g);
    SquareEdges(g);
    SquareClean(g);
    assert HasEdge(g.rev, ll, l);
    var m := Merged(s, b, l, ll);
    assert m > 0;
    PyResetSquare(g, b, ll, m);
    var g2 := PyReset(g, b, ll, m).value;
    PyCancelSquare(g2, b, ll);
  }

  /** A consolidation of a chain whose ends differ succeeds, and is the
      canonical consolidation of the squared graph. */
  lemma PyTripletSquare(g: Graph, b: Id, l: Id, ll: Id)
    requires PyClean(g) && HasEdge(g.fwd, b, l) && HasEdge(g.fwd, l, ll) && b != ll
    ensures Chain(Square(g), b, l, ll)
    ensures PyTriplet(g, b, l, ll).Ok?
    ensures Nodes(PyTriplet(g, b, l, ll).value) == Nodes(g)
    ensures Square(PyTriplet(g, b, l, ll).value) == Rearrange(Square(g), b, l, ll)
  {
    PyNettedSquare(g, b, l, ll);
    var s := Square(g);
    var c, m := CostDiff(s, b, l, ll), Merged(s, b, l, ll);
    var g2 := PyReset(g, b, ll, m).value;
    var g3 := PyCancel(g2, b, ll).value;
    var s3 := Cancel(Merge(s, b, l, ll), b, ll);
    assert b != l && l != ll by {
      assert HasEdge(g.fwd, b, l) && HasEdge(g.fwd, l, ll);
    }
    assert HasEdge(g3.fwd, b, l) && HasEdge(g3.fwd, l, ll) by {
      assert Clean(s) by { SquareClean(g); }
      MergeEdges(s, b, l, ll);
      CancelKeepsChain(Merge(s, b, l, ll), b, l, ll);
      SquareEdges(g3);
    }
    PyResidualSquare(g3, b, l, ll, c);
    ReadFwdPresent(g, b, l);
    SquareCost(g, b, l, ll);
    PyTripletUnfold(g, b, l, ll, g2, g3);
    assert Rearrange(s, b, l, ll) == Residual(s3, b, l, ll, c);
  }

  /** Reading rows that exist changes nothing. */
  lemma ReadFwdPresent(g: Graph, b: Id, l: Id)
    requires b in g.fwd && l in g.fwd
    ensures ReadFwd(ReadFwd(g, b), l) == g
  {
    assert Touch(g.fwd, b) == g.fwd;
    assert Touch(g.fwd, l) == g.fwd;
  }

  /** On a chain, the Python cost difference and merged amount are the canonical ones. */
  lemma SquareCost(g: Graph, b: Id, l: Id, ll: Id)
    requires Agree(g) && HasEdge(g.fwd, b, l) && HasEdge(g.fwd, l, ll)
    ensures Chain(Square(g), b, l, ll)
    ensures PyCostDiff(g, b, l, ll) == CostDiff(Square(g), b, l, ll)
    ensures PyMerged(g, b, l, ll) == Merged(Square(g), b, l, ll)
  {
    assert HasEdge(g.rev, ll, l);
    SquareAt(g, b, l);
    SquareAt(g, l, ll);
    SquareAt(g, b, ll);
  }

  lemma PyTripletUnfold(g: Graph, b: Id, l: Id, ll: Id, g2: Graph, g3: Graph)
    requires ReadFwd(ReadFwd(g, b), l) == g
    requires PyReset(g, b, ll, PyMerged(g, b, l, ll)) == Ok(g2)
    requires PyCancel(g2, b, ll) == Ok(g3)
    ensures PyTriplet(g, b, l, ll) == PyResidual(g3, b, l, ll, PyCostDiff(g, b, l, ll))
  {
  }

  /** A chain b -> l -> b, that is two nodes owing each other, raises
      KeyError: the merge writes b -> b, and netting b against itself prunes
      that edge twice. */
  lemma PyTripletSelf(g: Graph, b: Id, l: Id)
    requires PyClean(g) && HasEdge(g.fwd, b, l) && HasEdge(g.fwd, l, b)
    ensures PyTriplet(g, b, l, b) == Err("KeyError")
  {
    assert ReadFwd(ReadFwd(g, b), l) == g by {
      assert Touch(g.fwd, b) == g.fwd;
      assert Touch(g.fwd, l) == g.fwd;
    }
    var m := PyMerged(g, b, l, b);
    assert m > 0;
    var g2 := Put(g, b, b, m);
    assert PyReset(g, b, b, m) == Ok(g2);
    assert ReadFwd(g2, b) == g2 by {
      assert Touch(g2.fwd, b) == g2.fwd;
    }
    assert PyCancel(g2, b, b) == PyPrune(Del(g2, b, b), b, b);
  }

  /** Consolidating a chain keeps the graph clean, keeps every net position
      and lowers the total weight; it fails, with KeyError, exactly when
      the chain returns to its start. */
  lemma PyTripletStep(g: Graph, b: Id, l: Id, ll: Id)
    requires PyClean(g) && HasEdge(g.fwd, b, l) && HasEdge(g.fwd, l, ll)
    ensures PyTriplet(g, b, l, ll).Ok? <==> b != ll
    ensures PyTriplet(g, b, l, ll).Ok? ==> PyClean(PyTriplet(g, b, l, ll).value)
    ensures PyTriplet(g, b, l, ll).Ok? ==> forall n :: Net(PyTriplet(g, b, l, ll).value, n) == Net(g, n)
    ensures PyTriplet(g, b, l, ll).Ok? ==> Weight(PyTriplet(g, b, l, ll).value.fwd) < Weight(g.fwd)
  {
    if b == ll {
      PyTripletSelf(g, b, l);
    } else {
      PyTripletSquare(g, b, l, ll);
      var h := PyTriplet(g, b, l, ll).value;
      SquareClean(g);
      RearrangeStep(Square(g), b, l, ll);
      SquareClean(h);
      forall n ensures Net(h, n) == Net(g, n) {
        SquareNet(g, n);
        SquareNet(h, n);
      }
      SquareWeight(g);
      SquareWeight(h);
    }
  }

  /** A owes B 5 and B owes A 3. */
  function MutualDebt(): seq<Expense>
  {
    [Expense("A", "B", 5), Expense("B", "A", 3)]
  }

  /** Both chains of the mutual debt return to their start, so whichever node
      traverse visits first, __process_triplet raises KeyError. */
  lemma MutualDebtRaises()
    ensures PyClean(PyBuild(MutualDebt()))
    ensures HasEdge(PyBuild(MutualDebt()).fwd, "A", "B") && HasEdge(PyBuild(MutualDebt()).fwd, "B", "A")
    ensures PyTriplet(PyBuild(MutualDebt()), "B", "A", "B") == Err("KeyError")
    ensures PyTriplet(PyBuild(MutualDebt()), "A", "B", "A") == Err("KeyError")
  {
    var es := MutualDebt();
    PyBuildClean(es);
    PyBuildTotals(es, "A", "B");
    PyBuildTotals(es, "B", "A");
    assert es[0].borrower == "A" && es[0].lender == "B";
    assert es[1].borrower == "B" && es[1].lender == "A";
    PyTripletSelf(PyBuild(es), "B", "A");
    PyTripletSelf(PyBuild(es), "A", "B");
  }

  // ---------------------------------------------------------------------------
  // traverse

  /** The graph after reading `flipped_graph[k]`: k gets an empty reverse row if it has none. */
  function ReadRev(g: Graph, k: Id): Graph
  {
    Graph(g.fwd, Touch(g.rev, k))
  }

  /** Reading a reverse row changes no row's contents, so it keeps the graph
      clean and every net position. */
  lemma ReadRevKeeps(g: Graph, k: Id)
    ensures forall n :: RowOf(ReadRev(g, k).rev, n) == RowOf(g.rev, n)
    ensures PyClean(g) ==> PyClean(ReadRev(g, k))
    ensures forall n :: Net(ReadRev(g, k), n) == Net(g, n)
  {
    var r := ReadRev(g, k);
    if PyClean(g) {
      forall p, q | HasEdge(r.fwd, p, q) ensures HasEdge(r.rev, q, p) && r.rev[q][p] == r.fwd[p][q] {
        assert RowOf(r.rev, q) == RowOf(g.rev, q);
      }
      forall p, q | HasEdge(r.rev, q, p) ensures HasEdge(r.fwd, p, q) {
        assert RowOf(r.rev, q) == RowOf(g.rev, q);
      }
    }
  }

  /** A node traverse passes over: it owes nobody, nobody owes it, or its
      first borrower is the empty identity, which Python treats as false. */
  ghost predicate PyIdle(g: Graph, n: Id)
  {
    RowOf(g.fwd, n) == map[] || RowOf(g.rev, n) == map[] || "" in RowOf(g.rev, n)
  }

  /** When no node owes the empty identity's lender row, a pass that passed
      over every node leaves no node both owed and owing. */
  lemma PyIdleSettled(g: Graph)
    requires Agree(g) && "" !in g.fwd
    requires forall n :: n in g.fwd ==> PyIdle(g, n)
    ensures Settled(g)
  {
    forall n | n in g.fwd ensures g.fwd[n] == map[] || RowOf(g.rev, n) == map[] {
      assert PyIdle(g, n);
      if "" in RowOf(g.rev, n) {
        assert HasEdge(g.rev, n, "");
      }
    }
  }

  lemma SameRowsIdle(g: Graph, h: Graph)
    requires g.fwd == h.fwd && forall n :: RowOf(h.rev, n) == RowOf(g.rev, n)
    ensures forall n :: PyIdle(h, n) == PyIdle(g, n)
  {
  }

  /** The settlement graph of scripts/main.py: `fwd` is `graph`, `rev` is `flipped_graph`. */
  class PySettlementGraph {
    var fwd: Index
    var rev: Index

    function State(): Graph
      reads this
    {
      Graph(fwd, rev)
    }

    /** Two empty indices; __init__ is the method Init. */
    constructor ()
      ensures State() == Empty
    {
      fwd := map[];
      rev := map[];
    }

    /** One iteration of __build_graph's loop: graph[b][l] += amount, then
        flipped_graph[l][b] = graph[b][l]. */
    method Record(e: Expense)
      modifies this
      ensures State() == PyRecord(old(State()), e)
    {
      PyRecordWrites(State(), e);
      var sum := GetOr(RowOf(fwd, e.borrower), e.lender) + e.amount;
      fwd := fwd[e.borrower := RowOf(fwd, e.borrower)[e.lender := sum]];
      rev := rev[e.lender := RowOf(rev, e.lender)[e.borrower := sum]];
    }

    /** __build_graph: fresh indices, then every expense added in order. */
    method BuildGraph(es: seq<Expense>)
      modifies this
      ensures State() == PyBuild(es)
    {
      fwd, rev := map[], map[];
      var i := 0;
      while i < |es|
        invariant 0 <= i <= |es|
        invariant State() == PyBuild(es[..i])
      {
        PyBuildStep(es, i);
        Record(es[i]);
        i := i + 1;
      }
      assert es[..i] == es;
    }

    /** __prune_edge; `ok` is false when `del` raises KeyError. */
    method PruneEdge(b: Id, l: Id) returns (ok: bool)
      modifies this
      ensures PyPrune(old(State()), b, l) == if ok then Ok(State()) else Err("KeyError")
    {
      ghost var g := State();
      fwd := fwd[b := RowOf(fwd, b)];
      if l !in fwd[b] {
        return false;
      }
      fwd := fwd[b := fwd[b] - {l}];
      rev := rev[l := RowOf(rev, l)];
      if b !in rev[l] {
        return false;
      }
      rev := rev[l := rev[l] - {b}];
      assert State() == Del(g, b, l);
      ok := true;
    }

    /** __reset_edge_amount. */
    method ResetEdgeAmount(b: Id, l: Id, v: int) returns (ok: bool)
      modifies this
      ensures PyReset(old(State()), b, l, v) == if ok then Ok(State()) else Err("KeyError")
    {
      if v == 0 {
        ok := PruneEdge(b, l);
        return;
      }
      fwd := fwd[b := RowOf(fwd, b)[l := v]];
      rev := rev[l := RowOf(rev, l)[b := v]];
      ok := true;
    }

    /** __prune_bideractional_edge. */
    method PruneBideractionalEdge(a: Id, c: Id) returns (ok: bool)
      modifies this
      ensures PyCancel(old(State()), a, c) == if ok then Ok(State()) else Err("KeyError")
    {
      fwd := fwd[a := RowOf(fwd, a)];
      if GetOr(fwd[a], c) == 0 {
        return true;
      }
      fwd := fwd[c := RowOf(fwd, c)];
      if GetOr(fwd[c], a) == 0 {
        return true;
      }
      ok := NetPair(a, c);
    }

    /** The netting part of __prune_bideractional_edge. */
    method NetPair(a: Id, c: Id) returns (ok: bool)
      modifies this
      ensures PyNetPair(old(State()), a, c) == if ok then Ok(State()) else Err("KeyError")
    {
      ghost var g := State();
      var diff := GetOr(RowOf(fwd, a), c) - GetOr(RowOf(fwd, c), a);
      assert diff == Amt(g.fwd, a, c) - Amt(g.fwd, c, a);
      if diff == 0 {
        ok := PruneEdge(a, c);
        if !ok {
          return;
        }
        ghost var g3 := State();
        NetPairEqual(g, a, c, g3);
        ok := PruneEdge(c, a);
      } else if diff > 0 {
        ok := PruneEdge(c, a);
        if !ok {
          return;
        }
        ghost var g3 := State();
        NetPairFirst(g, a, c, g3);
        ok := ResetEdgeAmount(a, c, diff);
      } else {
        ok := PruneEdge(a, c);
        if !ok {
          return;
        }
        ghost var g3 := State();
        NetPairSecond(g, a, c, g3);
        ok := ResetEdgeAmount(c, a, Abs(diff));
      }
    }

    /** __process_triplet. */
    method ProcessTriplet(b: Id, l: Id, ll: Id) returns (ok: bool)
      modifies this
      ensures PyTriplet(old(State()), b, l, ll) == if ok then Ok(State()) else Err("KeyError")
    {
      fwd := fwd[b := RowOf(fwd, b)];
      fwd := fwd[l := RowOf(fwd, l)];
      ghost var g1 := State();
      var costDiff := GetOr(fwd[b], l) - GetOr(fwd[l], ll);
      assert costDiff == PyCostDiff(g1, b, l, ll);
      var merged := if costDiff >= 0 then GetOr(fwd[b], ll) + GetOr(fwd[l], ll) else GetOr(fwd[b], ll) + GetOr(fwd[b], l);
      assert merged == PyMerged(g1, b, l, ll);
      ok := ResetEdgeAmount(b, ll, merged);
      if !ok {
        return;
      }
      ok := PruneBideractionalEdge(b, ll);
      if !ok {
        return;
      }
      if costDiff >= 0 {
        ok := ResetEdgeAmount(b, l, costDiff);
        if !ok {
          return;
        }
        ok := PruneEdge(l, ll);
      } else {
        ok := ResetEdgeAmount(l, ll, Abs(costDiff));
        if !ok {
          return;
        }
        ok := PruneEdge(b, l);
      }
    }

    /** One pass of traverse's inner loop at `lender`, a key of `graph`: it is
        visited when its forward row is not empty and the first key of its
        reverse row (read through the defaulting index) is truthy; it is then
        the middle of the chain from that borrower to the first key of its
        forward row, which is consolidated. `ok` is false when that raises
        KeyError. The ghost `b` and `ll` are the borrower and the onward
        lender picked. */
    method VisitLender(lender: Id) returns (visited: bool, ok: bool, ghost b: Id, ghost ll: Id)
      requires PyClean(State()) && lender in fwd
      modifies this
      ensures visited ==> b in RowOf(old(rev), lender) && ll in old(fwd[lender]) && b != ""
      ensures visited ==> PyTriplet(ReadRev(old(State()), lender), b, lender, ll) == if ok then Ok(State()) else Err("KeyError")
      ensures visited ==> (ok <==> b != ll)
      ensures ok ==> PyClean(State()) && old(fwd.Keys) <= fwd.Keys
      ensures ok ==> forall n :: Net(State(), n) == Net(old(State()), n)
      ensures visited && ok ==> Weight(fwd) < Weight(old(fwd))
      ensures !visited ==> ok && fwd == old(fwd) && (forall n :: RowOf(rev, n) == RowOf(old(rev), n))
      ensures !visited ==> PyIdle(State(), lender)
      ensures old(fwd[lender]) == map[] || RowOf(old(rev), lender) == map[] ==> !visited
    {
      visited, ok, b, ll := false, true, "", "";
      if fwd[lender] == map[] {
        return;
      }
      ReadRevKeeps(State(), lender);
      rev := rev[lender := RowOf(rev, lender)];
      var borrower := First(rev[lender]);
      if borrower.None? || borrower.value == "" {
        return;
      }
      var lendersLender := First(fwd[lender]);
      ghost var g := State();
      b, ll := borrower.value, lendersLender.value;
      assert HasEdge(g.rev, lender, b);
      PyTripletStep(g, b, lender, ll);
      ok := ProcessTriplet(borrower.value, lender, lendersLender.value);
      visited := true;
    }

    /** traverse: passes over a snapshot of the forward keys, visiting each,
        until a pass consolidates nothing. `ok` is false when a consolidation
        raises KeyError. The argument is unused, as in the source. */
    method Traverse(borrowerAddress: Id) returns (ok: bool, graph: Index)
      requires PyClean(State())
      modifies this
      ensures ok ==> graph == fwd && PyClean(State())
      ensures ok ==> forall n :: Net(State(), n) == Net(old(State()), n)
      ensures ok && "" !in fwd ==> Settled(State())
      ensures Settled(old(State())) ==> ok && fwd == old(fwd) && forall n :: RowOf(rev, n) == RowOf(old(rev), n)
    {
      ghost var g0 := State();
      ok, graph := true, map[];
      var graphPruned := true;
      WeightNonNegative(State());
      while graphPruned
        invariant PyClean(State())
        invariant forall n :: Net(State(), n) == Net(g0, n)
        invariant Weight(fwd) >= 0
        invariant !graphPruned ==> forall n :: n in fwd ==> PyIdle(State(), n)
        invariant Settled(g0) ==> fwd == g0.fwd && forall n :: RowOf(rev, n) == RowOf(g0.rev, n)
        decreases Weight(fwd) + (if graphPruned then 1 else 0)
      {
        ghost var start := State();
        graphPruned := false;
        var nodes := fwd.Keys;
        while nodes != {}
          invariant nodes <= fwd.Keys
          invariant PyClean(State())
          invariant forall n :: Net(State(), n) == Net(g0, n)
          invariant graphPruned ==> Weight(fwd) < Weight(start.fwd)
          invariant !graphPruned ==> fwd == start.fwd && forall n :: RowOf(rev, n) == RowOf(start.rev, n)
          invariant !graphPruned ==> forall n :: n in fwd && n !in nodes ==> PyIdle(State(), n)
          invariant Settled(g0) ==> !graphPruned
          decreases nodes
        {
          var lender :| lender in nodes;
          nodes := nodes - {lender};
          ghost var before := State();
          assert Settled(g0) ==> fwd[lender] == map[] || RowOf(rev, lender) == map[] by {
            if Settled(g0) {
              assert RowOf(rev, lender) == RowOf(g0.rev, lender);
            }
          }
          var visited;
          ghost var b, ll;
          visited, ok, b, ll := VisitLender(lender);
          if !ok {
            return;
          }
          if visited {
            graphPruned := true;
          } else {
            SameRowsIdle(before, State());
          }
        }
        WeightNonNegative(State());
      }
      graph := fwd;
      if "" !in fwd {
        PyIdleSettled(State());
      }
    }

    /** __init__: build the graph, then traverse from its first key; with
        no expenses there is no first key, and the lookup raises IndexError. */
    method Init(es: seq<Expense>) returns (ok: bool)
      requires forall e :: e in es ==> e.amount > 0 && e.borrower != e.lender
      modifies this
      ensures es == [] ==> !ok
      ensures ok ==> PyClean(State()) && forall n :: Net(State(), n) == NetOf(es, n)
      ensures ok && "" !in fwd ==> Settled(State())
    {
      BuildGraph(es);
      PyBuildClean(es);
      forall n ensures Net(State(), n) == NetOf(es, n) {
        PyBuildNet(es, n);
      }
      if fwd == map[] {
        return false;
      }
      var first :| first in fwd;
      var graph;
      ok, graph := Traverse(first);
    }
  }
}
