/**
 The canonical settlement graph (consumers/core/settlementGraph.ts): its
 operations as functions on a `Graph` value, the properties they keep, and the
 class `SettlementGraph` that performs them in place on its two map fields.
 */
module Settlement {
  import opened Ledger

  /** Both indices agree and every node has a row in both of them, as
      buildGraph leaves it. */
  ghost predicate Valid(g: Graph)
  {
    Agree(g) && g.fwd.Keys == g.rev.Keys
  }

  /** What the collapse needs: a valid graph of positive amounts without self-loops. */
  ghost predicate Clean(g: Graph)
  {
    Valid(g) && Positive(g) && NoSelfLoop(g)
  }

  predicate HasRows(g: Graph, k: Id)
  {
    k in g.fwd && k in g.rev
  }

  /** JavaScript truthiness of `fwd[a][c]`: neither undefined nor 0n. */
  predicate Truthy(m: Index, a: Id, c: Id)
  {
    a in m && c in m[a] && m[a][c] != 0
  }

  /** No node is both owed and owing. */
  ghost predicate Settled(g: Graph)
  {
    forall n :: n in g.fwd ==> g.fwd[n] == map[] || RowOf(g.rev, n) == map[]
  }

  // ---------------------------------------------------------------------------
  // buildGraph

  /** One expense of buildGraph: the row of each party in each index is
      assigned itself, or an empty row when it has none; then the amount is
      written into both indices, overwriting an earlier one. */
  function Record(g: Graph, e: Expense): Graph
  {
    var f1 := g.fwd[e.borrower := RowOf(g.fwd, e.borrower)];
    var f2 := f1[e.lender := RowOf(f1, e.lender)];
    var r1 := g.rev[e.borrower := RowOf(g.rev, e.borrower)];
    var r2 := r1[e.lender := RowOf(r1, e.lender)];
    Graph(f2[e.borrower := f2[e.borrower][e.lender := e.amount]], r2[e.lender := r2[e.lender][e.borrower := e.amount]])
  }

  /** Recording is a paired write after giving both parties rows in both
      indices; so it adds both parties as keys, stores the amount and changes
      no other edge. */
  lemma RecordEffect(g: Graph, e: Expense)
    ensures Record(g, e) == Put(Graph(Touch(Touch(g.fwd, e.borrower), e.lender), Touch(Touch(g.rev, e.borrower), e.lender)), e.borrower, e.lender, e.amount)
    ensures Record(g, e).fwd.Keys == g.fwd.Keys + {e.borrower, e.lender} && Record(g, e).rev.Keys == g.rev.Keys + {e.borrower, e.lender}
    ensures HasEdge(Record(g, e).fwd, e.borrower, e.lender) && Record(g, e).fwd[e.borrower][e.lender] == e.amount
    ensures forall p, q :: p != e.borrower || q != e.lender ==>
      HasEdge(Record(g, e).fwd, p, q) == HasEdge(g.fwd, p, q) && Amt(Record(g, e).fwd, p, q) == Amt(g.fwd, p, q)
  {
    var t := Graph(Touch(Touch(g.fwd, e.borrower), e.lender), Touch(Touch(g.rev, e.borrower), e.lender));
    TouchEdges(g, t, e.borrower, e.lender);
  }

  /** Giving rows changes no edge. */
  lemma TouchEdges(g: Graph, t: Graph, b: Id, l: Id)
    requires t == Graph(Touch(Touch(g.fwd, b), l), Touch(Touch(g.rev, b), l))
    ensures forall p, q :: HasEdge(t.fwd, p, q) == HasEdge(g.fwd, p, q) && Amt(t.fwd, p, q) == Amt(g.fwd, p, q)
  {
    forall p, q ensures HasEdge(t.fwd, p, q) == HasEdge(g.fwd, p, q) && Amt(t.fwd, p, q) == Amt(g.fwd, p, q) {
      assert RowOf(t.fwd, p) == RowOf(g.fwd, p);
    }
  }

  /** Giving rows changes no row's contents. */
  lemma TouchRows(g: Graph, t: Graph, b: Id, l: Id)
    requires t == Graph(Touch(Touch(g.fwd, b), l), Touch(Touch(g.rev, b), l))
    ensures forall j :: j in t.fwd ==> t.fwd[j] == RowOf(g.fwd, j)
    ensures forall j :: j in t.rev ==> t.rev[j] == RowOf(g.rev, j)
  {
    forall j | j in t.fwd ensures t.fwd[j] == RowOf(g.fwd, j) { assert RowOf(t.fwd, j) == RowOf(g.fwd, j); }
    forall j | j in t.rev ensures t.rev[j] == RowOf(g.rev, j) { assert RowOf(t.rev, j) == RowOf(g.rev, j); }
  }

  lemma TouchAgree(g: Graph, t: Graph, b: Id, l: Id)
    requires t == Graph(Touch(Touch(g.fwd, b), l), Touch(Touch(g.rev, b), l)) && Agree(g)
    ensures Agree(t)
  {
    TouchRows(g, t, b, l);
    forall p, q | HasEdge(t.fwd, p, q) ensures HasEdge(t.rev, q, p) && t.rev[q][p] == t.fwd[p][q] {
      assert HasEdge(g.fwd, p, q);
    }
    forall p, q | HasEdge(t.rev, q, p) ensures HasEdge(t.fwd, p, q) {
      assert HasEdge(g.rev, q, p);
    }
  }

  lemma TouchPositive(g: Graph, t: Graph, b: Id, l: Id)
    requires t == Graph(Touch(Touch(g.fwd, b), l), Touch(Touch(g.rev, b), l)) && Positive(g)
    ensures Positive(t)
  {
    TouchRows(g, t, b, l);
  }

  lemma TouchNoSelfLoop(g: Graph, t: Graph, b: Id, l: Id)
    requires t == Graph(Touch(Touch(g.fwd, b), l), Touch(Touch(g.rev, b), l)) && NoSelfLoop(g)
    ensures NoSelfLoop(t)
  {
    TouchRows(g, t, b, l);
  }

  lemma RecordAgree(g: Graph, e: Expense)
    requires Agree(g)
    ensures Agree(Record(g, e))
  {
    RecordEffect(g, e);
    var t := Graph(Touch(Touch(g.fwd, e.borrower), e.lender), Touch(Touch(g.rev, e.borrower), e.lender));
    TouchAgree(g, t, e.borrower, e.lender);
    PutAgree(t, e.borrower, e.lender, e.amount);
  }

  /** Recording a positive expense between two distinct parties keeps the
      graph clean. */
  lemma RecordClean(g: Graph, e: Expense)
    requires Clean(g) && e.amount > 0 && e.borrower != e.lender
    ensures Clean(Record(g, e))
  {
    RecordEffect(g, e);
    var t := Graph(Touch(Touch(g.fwd, e.borrower), e.lender), Touch(Touch(g.rev, e.borrower), e.lender));
    TouchAgree(g, t, e.borrower, e.lender);
    TouchPositive(g, t, e.borrower, e.lender);
    TouchNoSelfLoop(g, t, e.borrower, e.lender);
    PutAgree(t, e.borrower, e.lender, e.amount);
    PutPositive(t, e.borrower, e.lender, e.amount);
    PutNoSelfLoop(t, e.borrower, e.lender, e.amount);
  }

  /** The graph after recording `es` in order, starting from `g`. */
  function Replay(g: Graph, es: seq<Expense>): Graph
    decreases |es|
  {
    if es == [] then g else Record(Replay(g, es[..|es| - 1]), es[|es| - 1])
  }

  lemma ReplayStep(g: Graph, es: seq<Expense>, i: nat)
    requires i < |es|
    ensures Replay(g, es[..i + 1]) == Record(Replay(g, es[..i]), es[i])
  {
    assert es[..i + 1][..i] == es[..i];
  }

  function Build(es: seq<Expense>): Graph
  {
    Replay(Empty, es)
  }

  /** Every identity that appears as a borrower or a lender in `es`. */
  ghost function Parties(es: seq<Expense>): set<Id>
    decreases |es|
  {
    if es == [] then {} else Parties(es[..|es| - 1]) + {es[|es| - 1].borrower, es[|es| - 1].lender}
  }

  /** The amount of the last expense from b to l, if any. */
  function LastAmount(es: seq<Expense>, b: Id, l: Id): Option<int>
    decreases |es|
  {
    if es == [] then None
    else if es[|es| - 1].borrower == b && es[|es| - 1].lender == l then Some(es[|es| - 1].amount)
    else LastAmount(es[..|es| - 1], b, l)
  }

  /** Every party of an expense gets a row, possibly empty, in both indices;
      the indices agree. */
  lemma {:induction false} BuildRows(es: seq<Expense>)
    ensures Valid(Build(es))
    ensures Build(es).fwd.Keys == Parties(es)
    decreases |es|
  {
    if es != [] {
      var p := es[..|es| - 1];
      BuildRows(p);
      RecordEffect(Build(p), es[|es| - 1]);
      RecordAgree(Build(p), es[|es| - 1]);
    }
  }

  lemma {:induction false} BuildLastAmount(es: seq<Expense>, b: Id, l: Id)
    ensures HasEdge(Build(es).fwd, b, l) <==> LastAmount(es, b, l).Some?
    ensures LastAmount(es, b, l).Some? ==> Build(es).fwd[b][l] == LastAmount(es, b, l).value
    decreases |es|
  {
    if es != [] {
      BuildLastAmount(es[..|es| - 1], b, l);
      RecordEffect(Build(es[..|es| - 1]), es[|es| - 1]);
    }
  }

  /** Duplicates overwrite: each edge carries the amount of the last expense
      for its pair, identically in both indices. */
  lemma BuildLastWins(es: seq<Expense>, b: Id, l: Id)
    ensures HasEdge(Build(es).fwd, b, l) <==> LastAmount(es, b, l).Some?
    ensures HasEdge(Build(es).rev, l, b) <==> LastAmount(es, b, l).Some?
    ensures LastAmount(es, b, l).Some? ==>
      Build(es).fwd[b][l] == LastAmount(es, b, l).value && Build(es).rev[l][b] == LastAmount(es, b, l).value
  {
    BuildLastAmount(es, b, l);
    BuildRows(es);
  }

  /** Positive amounts and no expense of a party to itself give a graph the
      collapse accepts. */
  lemma {:induction false} BuildClean(es: seq<Expense>)
    requires forall e :: e in es ==> e.amount > 0 && e.borrower != e.lender
    ensures Clean(Build(es))
    decreases |es|
  {
    BuildRows(es);
    if es != [] {
      BuildClean(es[..|es| - 1]);
      RecordClean(Build(es[..|es| - 1]), es[|es| - 1]);
    }
  }

  // ---------------------------------------------------------------------------
  // resetEdgeAmount, pruneBideractionalEdge, rearrangeTriplet

  /** Set b -> l to `v` in both indices; 0 deletes the edge instead. */
  function Reset(g: Graph, b: Id, l: Id, v: int): (r: Graph)
    requires b in g.fwd && l in g.rev
    ensures r.fwd.Keys == g.fwd.Keys && r.rev.Keys == g.rev.Keys
    ensures HasEdge(r.fwd, b, l) == (v != 0) && Amt(r.fwd, b, l) == v
    ensures forall p, q :: p != b || q != l ==> HasEdge(r.fwd, p, q) == HasEdge(g.fwd, p, q) && Amt(r.fwd, p, q) == Amt(g.fwd, p, q)
    ensures forall p, q :: p != b || q != l ==> HasEdge(r.rev, q, p) == HasEdge(g.rev, q, p) && Amt(r.rev, q, p) == Amt(g.rev, q, p)
  {
    if v == 0 then Del(g, b, l) else Put(g, b, l, v)
  }

  /** Net the two opposing edges between a and c into at most one. */
  function Cancel(g: Graph, a: Id, c: Id): (r: Graph)
    requires HasRows(g, a) && HasRows(g, c)
    ensures r.fwd.Keys == g.fwd.Keys && r.rev.Keys == g.rev.Keys
    ensures forall p, q :: !(p == a && q == c) && !(p == c && q == a) ==>
      HasEdge(r.fwd, p, q) == HasEdge(g.fwd, p, q) && Amt(r.fwd, p, q) == Amt(g.fwd, p, q)
    ensures forall p, q :: !(p == a && q == c) && !(p == c && q == a) ==>
      HasEdge(r.rev, q, p) == HasEdge(g.rev, q, p) && Amt(r.rev, q, p) == Amt(g.rev, q, p)
    ensures !(Truthy(g.fwd, a, c) && Truthy(g.fwd, c, a)) ==> r == g
    ensures Truthy(g.fwd, a, c) && Truthy(g.fwd, c, a) && a == c ==> !HasEdge(r.fwd, a, a)
    ensures Truthy(g.fwd, a, c) && Truthy(g.fwd, c, a) && a != c ==>
      var x, y := g.fwd[a][c], g.fwd[c][a];
      && (HasEdge(r.fwd, a, c) <==> x > y) && Amt(r.fwd, a, c) == (if x > y then x - y else 0)
      && (HasEdge(r.fwd, c, a) <==> y > x) && Amt(r.fwd, c, a) == (if y > x then y - x else 0)
  {
    if !Truthy(g.fwd, a, c) || !Truthy(g.fwd, c, a) then g
    else
      var diff := g.fwd[a][c] - g.fwd[c][a];
      if diff == 0 then Del(Del(g, a, c), c, a)
      else if diff > 0 then Reset(Del(g, c, a), a, c, diff)
      else Reset(Del(g, a, c), c, a, Flip(diff))
  }

  /** The preconditions of rearrangeTriplet: all three nodes have rows and the
      chain b -> l -> ll exists. */
  predicate Chain(g: Graph, b: Id, l: Id, ll: Id)
  {
    HasRows(g, b) && HasRows(g, l) && HasRows(g, ll) && HasEdge(g.fwd, b, l) && HasEdge(g.fwd, l, ll)
  }

  /** The magnitude of a negative difference of two opposing amounts: what
      the second one exceeds the first by. */
  function Flip(d: int): int
  {
    -d
  }

  /** costDiff of rearrangeTriplet: b -> l minus l -> ll. */
  function CostDiff(g: Graph, b: Id, l: Id, ll: Id): int
    requires Chain(g, b, l, ll)
  {
    g.fwd[b][l] - g.fwd[l][ll]
  }

  /** The debt rearrangeTriplet moves onto b -> ll: l -> ll when costDiff >= 0,
      b -> l otherwise, that is, the smaller of the two. */
  function Moved(g: Graph, b: Id, l: Id, ll: Id): (m: int)
    requires Chain(g, b, l, ll)
    ensures m <= g.fwd[b][l] && m <= g.fwd[l][ll]
    ensures m == g.fwd[b][l] || m == g.fwd[l][ll]
  {
    if CostDiff(g, b, l, ll) >= 0 then g.fwd[l][ll] else g.fwd[b][l]
  }

  /** The amount b -> ll is reset to: its old amount (0 when absent) plus the moved debt. */
  function Merged(g: Graph, b: Id, l: Id, ll: Id): int
    requires Chain(g, b, l, ll)
  {
    Amt(g.fwd, b, ll) + Moved(g, b, l, ll)
  }

  /** The first step of rearrangeTriplet in either branch. */
  function Merge(g: Graph, b: Id, l: Id, ll: Id): Graph
    requires Chain(g, b, l, ll)
  {
    Reset(g, b, ll, Merged(g, b, l, ll))
  }

  /** The last two steps of rearrangeTriplet: the residual of the chain stays
      on b -> l when costDiff >= 0 and on l -> ll otherwise; the other chain
      edge is deleted. */
  function Residual(g: Graph, b: Id, l: Id, ll: Id, costDiff: int): (r: Graph)
    requires HasRows(g, b) && HasRows(g, l) && HasRows(g, ll)
    ensures r.fwd.Keys == g.fwd.Keys && r.rev.Keys == g.rev.Keys
  {
    if costDiff >= 0 then Del(Reset(g, b, l, costDiff), l, ll)
    else Del(Reset(g, l, ll, Flip(costDiff)), b, l)
  }

  /** Consolidate the chain b -> l -> ll into direct debt from b to ll: merge
      into b -> ll, net b against ll, then keep the residual. */
  function Rearrange(g: Graph, b: Id, l: Id, ll: Id): Graph
    requires Chain(g, b, l, ll)
  {
    Residual(Cancel(Merge(g, b, l, ll), b, ll), b, l, ll, CostDiff(g, b, l, ll))
  }

  // ---------------------------------------------------------------------------
  // Agreement, positivity and the absence of self-loops

  lemma ResetAgree(g: Graph, b: Id, l: Id, v: int)
    requires b in g.fwd && l in g.rev && Agree(g)
    ensures Agree(Reset(g, b, l, v))
  {
    if v == 0 { DelAgree(g, b, l); } else { PutAgree(g, b, l, v); }
  }

  lemma ResetPositive(g: Graph, b: Id, l: Id, v: int)
    requires b in g.fwd && l in g.rev && Positive(g) && v >= 0
    ensures Positive(Reset(g, b, l, v))
  {
    if v == 0 { DelPositive(g, b, l); } else { PutPositive(g, b, l, v); }
  }

  lemma ResetNoSelfLoop(g: Graph, b: Id, l: Id, v: int)
    requires b in g.fwd && l in g.rev && NoSelfLoop(g) && b != l
    ensures NoSelfLoop(Reset(g, b, l, v))
  {
    if v == 0 { DelNoSelfLoop(g, b, l); } else { PutNoSelfLoop(g, b, l, v); }
  }

  lemma CancelAgree(g: Graph, a: Id, c: Id)
    requires HasRows(g, a) && HasRows(g, c) && Agree(g)
    ensures Agree(Cancel(g, a, c))
  {
    if Truthy(g.fwd, a, c) && Truthy(g.fwd, c, a) {
      var diff := g.fwd[a][c] - g.fwd[c][a];
      if diff == 0 {
        DelAgree(g, a, c);
        DelAgree(Del(g, a, c), c, a);
      } else if diff > 0 {
        DelAgree(g, c, a);
        ResetAgree(Del(g, c, a), a, c, diff);
      } else {
        DelAgree(g, a, c);
        ResetAgree(Del(g, a, c), c, a, Flip(diff));
      }
    }
  }

  lemma CancelPositive(g: Graph, a: Id, c: Id)
    requires HasRows(g, a) && HasRows(g, c) && Positive(g)
    ensures Positive(Cancel(g, a, c))
  {
    if Truthy(g.fwd, a, c) && Truthy(g.fwd, c, a) {
      var diff := g.fwd[a][c] - g.fwd[c][a];
      if diff == 0 {
        assert Cancel(g, a, c) == Del(Del(g, a, c), c, a);
        DelPositive(g, a, c);
        DelPositive(Del(g, a, c), c, a);
      } else if diff > 0 {
        assert Cancel(g, a, c) == Reset(Del(g, c, a), a, c, diff);
        DelPositive(g, c, a);
        ResetPositive(Del(g, c, a), a, c, diff);
      } else {
        assert Cancel(g, a, c) == Reset(Del(g, a, c), c, a, Flip(diff));
        DelPositive(g, a, c);
        ResetPositive(Del(g, a, c), c, a, Flip(diff));
      }
    }
  }

  /** Netting creates no self-loop, and removes the one self-loop a -> a,
      which it nets against itself. */
  lemma CancelNoSelfLoop(g: Graph, a: Id, c: Id)
    requires HasRows(g, a) && HasRows(g, c)
    requires forall p :: p in g.fwd && p != a ==> p !in g.fwd[p]
    requires a == c ==> Truthy(g.fwd, a, a)
    requires a != c ==> a !in g.fwd[a]
    ensures NoSelfLoop(Cancel(g, a, c))
  {
    var r := Cancel(g, a, c);
    forall p | p in r.fwd ensures p !in r.fwd[p] {
      assert !HasEdge(r.fwd, p, p);
    }
  }

  lemma MergeAgree(g: Graph, b: Id, l: Id, ll: Id)
    requires Agree(g) && Chain(g, b, l, ll)
    ensures Agree(Merge(g, b, l, ll))
  {
    ResetAgree(g, b, ll, Merged(g, b, l, ll));
  }

  lemma MergePositive(g: Graph, b: Id, l: Id, ll: Id)
    requires Positive(g) && Chain(g, b, l, ll)
    ensures Positive(Merge(g, b, l, ll))
  {
    ResetPositive(g, b, ll, Merged(g, b, l, ll));
  }

  /** The merge writes no self-loop other than b -> b, which it writes when b == ll. */
  lemma MergeNoSelfLoop(g: Graph, b: Id, l: Id, ll: Id)
    requires NoSelfLoop(g) && Chain(g, b, l, ll)
    ensures forall p :: p in Merge(g, b, l, ll).fwd && p != b ==> p !in Merge(g, b, l, ll).fwd[p]
    ensures b != ll ==> b !in Merge(g, b, l, ll).fwd[b]
  {
    var r := Merge(g, b, l, ll);
    forall p | p in r.fwd && (p != b || b != ll) ensures p !in r.fwd[p] {
      assert !HasEdge(r.fwd, p, p);
    }
  }

  /** The merge keeps the chain and its two amounts, and sets b -> ll to the merged amount. */
  lemma MergeEdges(g: Graph, b: Id, l: Id, ll: Id)
    requires NoSelfLoop(g) && Chain(g, b, l, ll)
    ensures Chain(Merge(g, b, l, ll), b, l, ll)
    ensures Merge(g, b, l, ll).fwd[b][l] == g.fwd[b][l] && Merge(g, b, l, ll).fwd[l][ll] == g.fwd[l][ll]
    ensures CostDiff(Merge(g, b, l, ll), b, l, ll) == CostDiff(g, b, l, ll)
    ensures Moved(Merge(g, b, l, ll), b, l, ll) == Moved(g, b, l, ll)
    ensures HasEdge(Merge(g, b, l, ll).fwd, b, ll) == (Merged(g, b, l, ll) != 0)
    ensures Amt(Merge(g, b, l, ll).fwd, b, ll) == Merged(g, b, l, ll)
  {
    assert b != l && l != ll;
  }

  /** Netting b against ll keeps the chain b -> l -> ll and its two amounts. */
  lemma CancelKeepsChain(g: Graph, b: Id, l: Id, ll: Id)
    requires Chain(g, b, l, ll) && b != l && l != ll
    ensures Chain(Cancel(g, b, ll), b, l, ll)
    ensures Cancel(g, b, ll).fwd[b][l] == g.fwd[b][l] && Cancel(g, b, ll).fwd[l][ll] == g.fwd[l][ll]
    ensures CostDiff(Cancel(g, b, ll), b, l, ll) == CostDiff(g, b, l, ll)
    ensures Moved(Cancel(g, b, ll), b, l, ll) == Moved(g, b, l, ll)
  {
  }

  lemma ResidualBranches(g: Graph, b: Id, l: Id, ll: Id, c: int)
    requires HasRows(g, b) && HasRows(g, l) && HasRows(g, ll)
    ensures c >= 0 ==> Residual(g, b, l, ll, c) == Del(Reset(g, b, l, c), l, ll)
    ensures c < 0 ==> Residual(g, b, l, ll, c) == Del(Reset(g, l, ll, Flip(c)), b, l)
  {
  }

  lemma ResidualAgree(g: Graph, b: Id, l: Id, ll: Id, costDiff: int)
    requires HasRows(g, b) && HasRows(g, l) && HasRows(g, ll) && Agree(g)
    ensures Agree(Residual(g, b, l, ll, costDiff))
  {
    if costDiff >= 0 {
      ResetAgree(g, b, l, costDiff);
      DelAgree(Reset(g, b, l, costDiff), l, ll);
    } else {
      ResetAgree(g, l, ll, Flip(costDiff));
      DelAgree(Reset(g, l, ll, Flip(costDiff)), b, l);
    }
  }

  lemma ResidualPositive(g: Graph, b: Id, l: Id, ll: Id, costDiff: int)
    requires HasRows(g, b) && HasRows(g, l) && HasRows(g, ll) && Positive(g)
    ensures Positive(Residual(g, b, l, ll, costDiff))
  {
    if costDiff >= 0 {
      ResetPositive(g, b, l, costDiff);
      DelPositive(Reset(g, b, l, costDiff), l, ll);
    } else {
      ResetPositive(g, l, ll, Flip(costDiff));
      DelPositive(Reset(g, l, ll, Flip(costDiff)), b, l);
    }
  }

  lemma ResidualNoSelfLoop(g: Graph, b: Id, l: Id, ll: Id, costDiff: int)
    requires HasRows(g, b) && HasRows(g, l) && HasRows(g, ll) && NoSelfLoop(g) && b != l && l != ll
    ensures NoSelfLoop(Residual(g, b, l, ll, costDiff))
  {
    if costDiff >= 0 {
      ResetNoSelfLoop(g, b, l, costDiff);
      DelNoSelfLoop(Reset(g, b, l, costDiff), l, ll);
    } else {
      ResetNoSelfLoop(g, l, ll, Flip(costDiff));
      DelNoSelfLoop(Reset(g, l, ll, Flip(costDiff)), b, l);
    }
  }

  /** Consolidation keeps the graph clean and its rows as they were. */
  lemma RearrangeClean(g: Graph, b: Id, l: Id, ll: Id)
    requires Clean(g) && Chain(g, b, l, ll)
    ensures Rearrange(g, b, l, ll).fwd.Keys == g.fwd.Keys && Rearrange(g, b, l, ll).rev.Keys == g.rev.Keys
    ensures Clean(Rearrange(g, b, l, ll))
  {
    var g1 := Merge(g, b, l, ll);
    MergeAgree(g, b, l, ll);
    MergePositive(g, b, l, ll);
    MergeNoSelfLoop(g, b, l, ll);
    MergeEdges(g, b, l, ll);
    var g2 := Cancel(g1, b, ll);
    CancelAgree(g1, b, ll);
    CancelPositive(g1, b, ll);
    CancelNoSelfLoop(g1, b, ll);
    CancelKeepsChain(g1, b, l, ll);
    var c := CostDiff(g, b, l, ll);
    ResidualAgree(g2, b, l, ll, c);
    ResidualPositive(g2, b, l, ll, c);
    ResidualNoSelfLoop(g2, b, l, ll, c);
  }

  // ---------------------------------------------------------------------------
  // Net positions and total weight

  lemma ResetNet(g: Graph, b: Id, l: Id, v: int, n: Id)
    requires b in g.fwd && l in g.rev && Agree(g)
    ensures var d := v - Amt(g.fwd, b, l);
      Net(Reset(g, b, l, v), n) == Net(g, n) + (if n == b then d else 0) - (if n == l then d else 0)
  {
    if v == 0 { DelNet(g, b, l, n); } else { PutNet(g, b, l, v, n); }
  }

  lemma ResetWeight(g: Graph, b: Id, l: Id, v: int)
    requires b in g.fwd && l in g.rev
    ensures Weight(Reset(g, b, l, v).fwd) == Weight(g.fwd) - Amt(g.fwd, b, l) + v
  {
    if v == 0 { DelWeight(g, b, l); } else { PutWeight(g, b, l, v); }
  }

  /** Netting two opposing edges leaves every node's net position as it was. */
  lemma CancelNet(g: Graph, a: Id, c: Id, n: Id)
    requires HasRows(g, a) && HasRows(g, c) && Agree(g)
    ensures Net(Cancel(g, a, c), n) == Net(g, n)
  {
    if Truthy(g.fwd, a, c) && Truthy(g.fwd, c, a) {
      var diff := g.fwd[a][c] - g.fwd[c][a];
      if diff == 0 {
        DelNet(g, a, c, n);
        DelAgree(g, a, c);
        DelNet(Del(g, a, c), c, a, n);
      } else if diff > 0 {
        DelNet(g, c, a, n);
        DelAgree(g, c, a);
        ResetNet(Del(g, c, a), a, c, diff, n);
      } else {
        DelNet(g, a, c, n);
        DelAgree(g, a, c);
        ResetNet(Del(g, a, c), c, a, Flip(diff), n);
      }
    }
  }

  /** Netting never adds weight. */
  lemma CancelWeight(g: Graph, a: Id, c: Id)
    requires HasRows(g, a) && HasRows(g, c) && Positive(g)
    ensures Weight(Cancel(g, a, c).fwd) <= Weight(g.fwd)
  {
    if Truthy(g.fwd, a, c) && Truthy(g.fwd, c, a) {
      var diff := g.fwd[a][c] - g.fwd[c][a];
      if diff == 0 {
        assert Cancel(g, a, c) == Del(Del(g, a, c), c, a);
        DelWeight(g, a, c);
        DelWeight(Del(g, a, c), c, a);
        assert Amt(Del(g, a, c).fwd, c, a) >= 0;
      } else if diff > 0 {
        assert Cancel(g, a, c) == Reset(Del(g, c, a), a, c, diff);
        DelWeight(g, c, a);
        ResetWeight(Del(g, c, a), a, c, diff);
      } else {
        assert Cancel(g, a, c) == Reset(Del(g, a, c), c, a, Flip(diff));
        DelWeight(g, a, c);
        ResetWeight(Del(g, a, c), c, a, Flip(diff));
      }
    }
  }

  /** The merge moves the smaller chain amount onto b -> ll: b owes that much
      more and ll is owed that much more. */
  lemma MergeNet(g: Graph, b: Id, l: Id, ll: Id, n: Id)
    requires Agree(g) && Chain(g, b, l, ll)
    ensures var m := Moved(g, b, l, ll);
      Net(Merge(g, b, l, ll), n) == Net(g, n) + (if n == b then m else 0) - (if n == ll then m else 0)
  {
    ResetNet(g, b, ll, Merged(g, b, l, ll), n);
  }

  lemma MergeWeight(g: Graph, b: Id, l: Id, ll: Id)
    requires Chain(g, b, l, ll)
    ensures Weight(Merge(g, b, l, ll).fwd) == Weight(g.fwd) + Moved(g, b, l, ll)
  {
    ResetWeight(g, b, ll, Merged(g, b, l, ll));
  }

  /** Keeping the residual and deleting the other chain edge hands the moved
      debt back: b owes it less and ll is owed it less. */
  lemma ResidualNet(g: Graph, b: Id, l: Id, ll: Id, n: Id)
    requires Agree(g) && Chain(g, b, l, ll) && b != l && l != ll
    ensures var m := Moved(g, b, l, ll);
      Net(Residual(g, b, l, ll, CostDiff(g, b, l, ll)), n) == Net(g, n) - (if n == b then m else 0) + (if n == ll then m else 0)
  {
    var c, x, y := CostDiff(g, b, l, ll), g.fwd[b][l], g.fwd[l][ll];
    ResidualBranches(g, b, l, ll, c);
    if c >= 0 {
      KeepFirstNet(g, b, l, ll, n, x, y, c);
      assert Moved(g, b, l, ll) == y;
    } else {
      KeepSecondNet(g, b, l, ll, n, x, y, c);
      assert Moved(g, b, l, ll) == x;
    }
  }

  lemma KeepFirstNet(g: Graph, b: Id, l: Id, ll: Id, n: Id, x: int, y: int, c: int)
    requires Agree(g) && HasRows(g, b) && HasRows(g, l) && HasRows(g, ll) && b != l
    requires Amt(g.fwd, b, l) == x && Amt(g.fwd, l, ll) == y && c == x - y
    ensures Net(Del(Reset(g, b, l, c), l, ll), n) == Net(g, n) - (if n == b then y else 0) + (if n == ll then y else 0)
  {
    var r1 := Reset(g, b, l, c);
    ResetNet(g, b, l, c, n);
    ResetAgree(g, b, l, c);
    assert Amt(r1.fwd, l, ll) == y;
    DelNet(r1, l, ll, n);
  }

  lemma KeepSecondNet(g: Graph, b: Id, l: Id, ll: Id, n: Id, x: int, y: int, c: int)
    requires Agree(g) && HasRows(g, b) && HasRows(g, l) && HasRows(g, ll) && b != l && l != ll
    requires Amt(g.fwd, b, l) == x && Amt(g.fwd, l, ll) == y && c == x - y
    ensures Net(Del(Reset(g, l, ll, Flip(c)), b, l), n) == Net(g, n) - (if n == b then x else 0) + (if n == ll then x else 0)
  {
    var r1 := Reset(g, l, ll, Flip(c));
    ResetNet(g, l, ll, Flip(c), n);
    ResetAgree(g, l, ll, Flip(c));
    assert Amt(r1.fwd, b, l) == x;
    DelNet(r1, b, l, n);
  }

  /** The residual step removes twice the moved debt. */
  lemma ResidualWeight(g: Graph, b: Id, l: Id, ll: Id)
    requires Chain(g, b, l, ll) && b != l
    ensures Weight(Residual(g, b, l, ll, CostDiff(g, b, l, ll)).fwd) == Weight(g.fwd) - 2 * Moved(g, b, l, ll)
  {
    var c, x, y := CostDiff(g, b, l, ll), g.fwd[b][l], g.fwd[l][ll];
    ResidualBranches(g, b, l, ll, c);
    if c >= 0 {
      KeepFirstWeight(g, b, l, ll, x, y, c);
      assert Moved(g, b, l, ll) == y;
    } else {
      KeepSecondWeight(g, b, l, ll, x, y, c);
      assert Moved(g, b, l, ll) == x;
    }
  }

  lemma KeepFirstWeight(g: Graph, b: Id, l: Id, ll: Id, x: int, y: int, c: int)
    requires HasRows(g, b) && HasRows(g, l) && HasRows(g, ll) && b != l
    requires Amt(g.fwd, b, l) == x && Amt(g.fwd, l, ll) == y && c == x - y
    ensures Weight(Del(Reset(g, b, l, c), l, ll).fwd) == Weight(g.fwd) - 2 * y
  {
    var r1 := Reset(g, b, l, c);
    ResetWeight(g, b, l, c);
    assert Amt(r1.fwd, l, ll) == y;
    DelWeight(r1, l, ll);
  }

  lemma KeepSecondWeight(g: Graph, b: Id, l: Id, ll: Id, x: int, y: int, c: int)
    requires HasRows(g, b) && HasRows(g, l) && HasRows(g, ll) && b != l
    requires Amt(g.fwd, b, l) == x && Amt(g.fwd, l, ll) == y && c == x - y
    ensures Weight(Del(Reset(g, l, ll, Flip(c)), b, l).fwd) == Weight(g.fwd) - 2 * x
  {
    var r1 := Reset(g, l, ll, Flip(c));
    ResetWeight(g, l, ll, Flip(c));
    assert Amt(r1.fwd, b, l) == x;
    DelWeight(r1, b, l);
  }

  /** Consolidation leaves every node's net position (owing minus owed) as it was. */
  lemma RearrangeNet(g: Graph, b: Id, l: Id, ll: Id, n: Id)
    requires Clean(g) && Chain(g, b, l, ll)
    ensures Net(Rearrange(g, b, l, ll), n) == Net(g, n)
  {
    var g1 := Merge(g, b, l, ll);
    MergeNet(g, b, l, ll, n);
    MergeAgree(g, b, l, ll);
    MergeEdges(g, b, l, ll);
    var g2 := Cancel(g1, b, ll);
    CancelNet(g1, b, ll, n);
    CancelAgree(g1, b, ll);
    CancelKeepsChain(g1, b, l, ll);
    ResidualNet(g2, b, l, ll, n);
  }

  /** Consolidation removes at least the moved debt, which is at least 1:
      the measure of the collapse loop. */
  lemma RearrangeShrinks(g: Graph, b: Id, l: Id, ll: Id)
    requires Clean(g) && Chain(g, b, l, ll)
    ensures Weight(Rearrange(g, b, l, ll).fwd) <= Weight(g.fwd) - Moved(g, b, l, ll)
    ensures Weight(Rearrange(g, b, l, ll).fwd) < Weight(g.fwd)
  {
    var g1 := Merge(g, b, l, ll);
    MergeWeight(g, b, l, ll);
    MergePositive(g, b, l, ll);
    MergeEdges(g, b, l, ll);
    var g2 := Cancel(g1, b, ll);
    CancelWeight(g1, b, ll);
    CancelKeepsChain(g1, b, l, ll);
    ResidualWeight(g2, b, l, ll);
  }

  // ---------------------------------------------------------------------------
  // Where the debts end up

  /** Netting a against c, when a -> c is truthy, keeps their difference and
      leaves at most one of the two directions. */
  lemma CancelPair(g: Graph, a: Id, c: Id)
    requires HasRows(g, a) && HasRows(g, c) && Positive(g) && a != c && Truthy(g.fwd, a, c)
    ensures Amt(Cancel(g, a, c).fwd, a, c) - Amt(Cancel(g, a, c).fwd, c, a) == Amt(g.fwd, a, c) - Amt(g.fwd, c, a)
    ensures !(HasEdge(Cancel(g, a, c).fwd, a, c) && HasEdge(Cancel(g, a, c).fwd, c, a))
  {
  }

  /** The residual step sets the kept chain edge to the residual (removing it
      when the residual is 0), deletes the other chain edge and changes
      nothing else. */
  lemma ResidualEdges(g: Graph, b: Id, l: Id, ll: Id, costDiff: int)
    requires HasRows(g, b) && HasRows(g, l) && HasRows(g, ll) && b != l && l != ll
    ensures var r := Residual(g, b, l, ll, costDiff);
      costDiff >= 0 ==> HasEdge(r.fwd, b, l) == (costDiff > 0) && Amt(r.fwd, b, l) == costDiff && !HasEdge(r.fwd, l, ll)
    ensures var r := Residual(g, b, l, ll, costDiff);
      costDiff < 0 ==> HasEdge(r.fwd, l, ll) && Amt(r.fwd, l, ll) == -costDiff && !HasEdge(r.fwd, b, l)
    ensures var r := Residual(g, b, l, ll, costDiff);
      forall p, q :: !(p == b && q == l) && !(p == l && q == ll) ==>
        HasEdge(r.fwd, p, q) == HasEdge(g.fwd, p, q) && Amt(r.fwd, p, q) == Amt(g.fwd, p, q)
  {
    ResidualBranches(g, b, l, ll, costDiff);
  }

  /** The chain edges after consolidation: when b -> l was at least l -> ll,
      b -> l carries the difference (and is gone when they were equal) and
      l -> ll is gone; otherwise l -> ll carries the difference and b -> l is
      gone. */
  lemma RearrangeChain(g: Graph, b: Id, l: Id, ll: Id)
    requires Clean(g) && Chain(g, b, l, ll)
    ensures var r, c := Rearrange(g, b, l, ll), CostDiff(g, b, l, ll);
      c >= 0 ==> HasEdge(r.fwd, b, l) == (c > 0) && Amt(r.fwd, b, l) == c && !HasEdge(r.fwd, l, ll)
    ensures var r, c := Rearrange(g, b, l, ll), CostDiff(g, b, l, ll);
      c < 0 ==> HasEdge(r.fwd, l, ll) && Amt(r.fwd, l, ll) == -c && !HasEdge(r.fwd, b, l)
  {
    var g1 := Merge(g, b, l, ll);
    MergeEdges(g, b, l, ll);
    var g2 := Cancel(g1, b, ll);
    CancelKeepsChain(g1, b, l, ll);
    ResidualEdges(g2, b, l, ll, CostDiff(g, b, l, ll));
  }

  /** Between b and a distinct ll, consolidation adds the moved debt to what b
      owes ll net, and leaves at most one direction. */
  lemma RearrangeDirect(g: Graph, b: Id, l: Id, ll: Id)
    requires Clean(g) && Chain(g, b, l, ll) && b != ll
    ensures var r := Rearrange(g, b, l, ll);
      Amt(r.fwd, b, ll) - Amt(r.fwd, ll, b) == Amt(g.fwd, b, ll) - Amt(g.fwd, ll, b) + Moved(g, b, l, ll)
    ensures var r := Rearrange(g, b, l, ll);
      !(HasEdge(r.fwd, b, ll) && HasEdge(r.fwd, ll, b))
  {
    var g1 := Merge(g, b, l, ll);
    MergeEdges(g, b, l, ll);
    MergePositive(g, b, l, ll);
    assert Amt(g1.fwd, ll, b) == Amt(g.fwd, ll, b);
    var g2 := Cancel(g1, b, ll);
    CancelPair(g1, b, ll);
    CancelKeepsChain(g1, b, l, ll);
    ResidualEdges(g2, b, l, ll, CostDiff(g, b, l, ll));
  }

  /** Consolidation changes no edge outside the chain and the pair b, ll. */
  lemma RearrangeFrame(g: Graph, b: Id, l: Id, ll: Id)
    requires Clean(g) && Chain(g, b, l, ll)
    ensures var r := Rearrange(g, b, l, ll);
      forall p, q :: !(p == b && q == l) && !(p == l && q == ll) && !(p == b && q == ll) && !(p == ll && q == b) ==>
        HasEdge(r.fwd, p, q) == HasEdge(g.fwd, p, q) && Amt(r.fwd, p, q) == Amt(g.fwd, p, q)
  {
    var g1 := Merge(g, b, l, ll);
    MergeEdges(g, b, l, ll);
    var g2 := Cancel(g1, b, ll);
    CancelKeepsChain(g1, b, l, ll);
    ResidualEdges(g2, b, l, ll, CostDiff(g, b, l, ll));
  }

  // ---------------------------------------------------------------------------
  // collapseGraph

  /** When a node is passed over by a pass of collapseGraph: it owes nobody,
      nobody owes it, or the key `first` picked is the empty identity, which
      JavaScript reads as absent. */
  ghost predicate Idle(g: Graph, n: Id)
  {
    RowOf(g.fwd, n) == map[] || RowOf(g.rev, n) == map[] || "" in RowOf(g.fwd, n) || "" in RowOf(g.rev, n)
  }

  /** A node's picked borrower and onward lender form a chain rearrangeTriplet accepts. */
  lemma FoundChain(g: Graph, b: Id, l: Id, ll: Id)
    requires Valid(g) && l in g.fwd && b in RowOf(g.rev, l) && ll in g.fwd[l]
    ensures Chain(g, b, l, ll)
  {
    assert HasEdge(g.rev, l, b) && HasEdge(g.fwd, l, ll);
  }

  /** A settled graph passes over every node. */
  lemma SettledIdle(g: Graph, n: Id)
    requires Settled(g) && n in g.fwd
    ensures Idle(g, n)
  {
  }

  /** When no node is named by the empty identity, a pass that passed over
      every node found a settled graph. */
  lemma IdleSettled(g: Graph)
    requires Valid(g) && "" !in g.fwd
    requires forall n :: n in g.fwd ==> Idle(g, n)
    ensures Settled(g)
  {
    forall n | n in g.fwd ensures g.fwd[n] == map[] || RowOf(g.rev, n) == map[] {
      assert Idle(g, n);
      if "" in RowOf(g.fwd, n) {
        assert HasEdge(g.fwd, n, "");
      } else if "" in RowOf(g.rev, n) {
        assert HasEdge(g.rev, n, "");
      }
    }
  }

  /** Everything one consolidation preserves and the weight it removes, for
      the collapse loop. */
  lemma RearrangeStep(g: Graph, b: Id, l: Id, ll: Id)
    requires Clean(g) && Chain(g, b, l, ll)
    ensures Clean(Rearrange(g, b, l, ll))
    ensures Rearrange(g, b, l, ll).fwd.Keys == g.fwd.Keys && Rearrange(g, b, l, ll).rev.Keys == g.rev.Keys
    ensures Weight(Rearrange(g, b, l, ll).fwd) < Weight(g.fwd)
    ensures forall n :: Net(Rearrange(g, b, l, ll), n) == Net(g, n)
  {
    RearrangeClean(g, b, l, ll);
    RearrangeShrinks(g, b, l, ll);
    forall n ensures Net(Rearrange(g, b, l, ll), n) == Net(g, n) {
      RearrangeNet(g, b, l, ll, n);
    }
  }

  /** JavaScript's `first`: some key of the row, or undefined (None) when the
      row is empty. Key order is not modelled, so which key is left open. */
  method First(row: Row) returns (k: Option<Id>)
    ensures k.None? <==> row == map[]
    ensures k.Some? ==> k.value in row
  {
    if row == map[] {
      k := None;
    } else {
      var j :| j in row;
      k := Some(j);
    }
  }

  /** The settlement graph of consumers/core/settlementGraph.ts: `fwd` is
      borrowerLenderGraph, `rev` is lenderBorrowerGraph. */
  class SettlementGraph {
    const expenses: seq<Expense>
    var fwd: Index
    var rev: Index

    function State(): Graph
      reads this
    {
      Graph(fwd, rev)
    }

    constructor (es: seq<Expense>)
      ensures expenses == es
      ensures State() == Build(es)
    {
      expenses := es;
      fwd := map[];
      rev := map[];
      new;
      BuildGraph();
    }

    /** Record every expense in order: rows for both parties in both indices,
        then the amount in both, overwriting an earlier amount for the pair. */
    method BuildGraph()
      modifies this
      ensures State() == Replay(old(State()), expenses)
    {
      ghost var g0 := State();
      var i := 0;
      while i < |expenses|
        invariant 0 <= i <= |expenses|
        invariant State() == Replay(g0, expenses[..i])
      {
        var e := expenses[i];
        ReplayStep(g0, expenses, i);
        fwd := fwd[e.borrower := RowOf(fwd, e.borrower)];
        fwd := fwd[e.lender := RowOf(fwd, e.lender)];
        rev := rev[e.borrower := RowOf(rev, e.borrower)];
        rev := rev[e.lender := RowOf(rev, e.lender)];
        fwd := fwd[e.borrower := fwd[e.borrower][e.lender := e.amount]];
        rev := rev[e.lender := rev[e.lender][e.borrower := e.amount]];
        i := i + 1;
      }
      assert expenses[..i] == expenses;
    }

    /** Delete b -> l from both indices. */
    method PruneEdge(b: Id, l: Id)
      requires b in fwd && l in rev
      modifies this
      ensures State() == Del(old(State()), b, l)
    {
      fwd := fwd[b := fwd[b] - {l}];
      rev := rev[l := rev[l] - {b}];
    }

    /** Set b -> l to `v` in both indices; 0 prunes the edge. */
    method ResetEdgeAmount(b: Id, l: Id, v: int)
      requires b in fwd && l in rev
      modifies this
      ensures State() == Reset(old(State()), b, l, v)
    {
      if v == 0 {
        PruneEdge(b, l);
        return;
      }
      fwd := fwd[b := fwd[b][l := v]];
      rev := rev[l := rev[l][b := v]];
    }

    /** Net a -> c against c -> a when both are truthy. */
    method PruneBideractionalEdge(a: Id, c: Id)
      requires HasRows(State(), a) && HasRows(State(), c)
      modifies this
      ensures State() == Cancel(old(State()), a, c)
    {
      if !Truthy(fwd, a, c) || !Truthy(fwd, c, a) {
        return;
      }
      var edgeDiff := fwd[a][c] - fwd[c][a];
      if edgeDiff == 0 {
        PruneEdge(a, c);
        PruneEdge(c, a);
      } else if edgeDiff > 0 {
        PruneEdge(c, a);
        ResetEdgeAmount(a, c, edgeDiff);
      } else {
        PruneEdge(a, c);
        ResetEdgeAmount(c, a, -edgeDiff);
      }
    }

    /** Consolidate the chain b -> l -> ll. */
    method RearrangeTriplet(b: Id, l: Id, ll: Id)
      requires Chain(State(), b, l, ll)
      modifies this
      ensures State() == Rearrange(old(State()), b, l, ll)
    {
      ghost var g := State();
      var costDiff := fwd[b][l] - fwd[l][ll];
      assert costDiff == CostDiff(g, b, l, ll);
      if costDiff >= 0 {
        var merged := (if ll in fwd[b] then fwd[b][ll] else 0) + fwd[l][ll];
        assert merged == Merged(g, b, l, ll);
        ResetEdgeAmount(b, ll, merged);
        PruneBideractionalEdge(b, ll);
        ghost var netted := State();
        ResetEdgeAmount(b, l, costDiff);
        PruneEdge(l, ll);
        ResidualBranches(netted, b, l, ll, costDiff);
      } else {
        var merged := (if ll in fwd[b] then fwd[b][ll] else 0) + fwd[b][l];
        assert merged == Merged(g, b, l, ll);
        ResetEdgeAmount(b, ll, merged);
        PruneBideractionalEdge(b, ll);
        ghost var netted := State();
        ResetEdgeAmount(l, ll, -costDiff);
        PruneEdge(b, l);
        ResidualBranches(netted, b, l, ll, costDiff);
      }
    }

    /** The body of a pass of collapseGraph for one node `lender`: pick a
        borrower owing it and a node it owes with `first`, pass over the node
        when either is missing or is the empty identity, and consolidate the
        chain otherwise. The ghost `b` and `ll` are the borrower and the onward
        lender picked. */
    method VisitLender(lender: Id) returns (pruned: bool, ghost b: Id, ghost ll: Id)
      requires Clean(State()) && lender in fwd
      modifies this
      ensures pruned ==> b in old(rev[lender]) && ll in old(fwd[lender]) && b != "" && ll != ""
      ensures pruned ==> Chain(old(State()), b, lender, ll)
      ensures pruned ==> State() == Rearrange(old(State()), b, lender, ll)
      ensures fwd.Keys == old(fwd.Keys) && rev.Keys == old(rev.Keys)
      ensures Clean(State())
      ensures forall n :: Net(State(), n) == Net(old(State()), n)
      ensures pruned ==> Weight(fwd) < old(Weight(fwd))
      ensures !pruned ==> State() == old(State()) && Idle(State(), lender)
      ensures Settled(old(State())) ==> !pruned
    {
      var borrower := First(rev[lender]);
      var lendersLender := First(fwd[lender]);
      if borrower.None? || borrower.value == "" || lendersLender.None? || lendersLender.value == "" {
        return false, "", "";
      }
      ghost var g := State();
      if Settled(g) {
        SettledIdle(g, lender);
      }
      b, ll := borrower.value, lendersLender.value;
      FoundChain(g, b, lender, ll);
      RearrangeStep(g, b, lender, ll);
      RearrangeTriplet(borrower.value, lender, lendersLender.value);
      pruned := true;
    }

    /** Repeat passes over every node until a pass consolidates nothing. In
        each pass, a node with a borrower and an onward lender (the keys
        `first` picks) has its chain consolidated. */
    method CollapseGraph()
      requires Clean(State())
      modifies this
      ensures Clean(State())
      ensures fwd.Keys == old(fwd.Keys) && rev.Keys == old(rev.Keys)
      ensures forall n :: Net(State(), n) == Net(old(State()), n)
      ensures "" !in fwd ==> Settled(State())
      ensures Settled(old(State())) ==> State() == old(State())
    {
      ghost var g0 := State();
      WeightNonNegative(g0);
      var graphPruned := true;
      while graphPruned
        invariant Clean(State()) && fwd.Keys == g0.fwd.Keys && rev.Keys == g0.rev.Keys
        invariant forall n :: Net(State(), n) == Net(g0, n)
        invariant Weight(fwd) >= 0
        invariant !graphPruned ==> forall n :: n in fwd ==> Idle(State(), n)
        invariant Settled(g0) ==> State() == g0
        decreases Weight(fwd) + (if graphPruned then 1 else 0)
      {
        graphPruned := false;
        ghost var start := State();
        var todo := fwd.Keys;
        while todo != {}
          invariant todo <= g0.fwd.Keys
          invariant Clean(State()) && fwd.Keys == g0.fwd.Keys && rev.Keys == g0.rev.Keys
          invariant forall n :: Net(State(), n) == Net(g0, n)
          invariant graphPruned ==> Weight(fwd) < Weight(start.fwd)
          invariant !graphPruned ==> State() == start
          invariant !graphPruned ==> forall n :: n in fwd && n !in todo ==> Idle(State(), n)
          invariant Settled(g0) ==> !graphPruned
          decreases todo
        {
          var lender :| lender in todo;
          todo := todo - {lender};
          var pruned;
          ghost var b, ll;
          pruned, b, ll := VisitLender(lender);
          if pruned {
            graphPruned := true;
          }
        }
        WeightNonNegative(State());
      }
      if "" !in fwd {
        IdleSettled(State());
      }
    }
  }
}
