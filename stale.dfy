/**
 The stale copy of the settlement graph in scripts/runExpenseSettlement.ts.
 Its buildGraph, pruneEdge, resetEdgeAmount and pruneBideractionalEdge do
 what the canonical ones do. Its rearrangeTriplet reads the direct edge with
 a bitwise `| 0n` and, when costDiff is negative, deletes the wrong chain
 edge. Its collapseGraph never raises its `graphPruned` flag, so it makes a
 single pass, and that pass stops at the first node it cannot consolidate.
 */
module StaleSettlement {
  import opened Ledger
  import opened Settlement

  /** rearrangeTriplet of the stale copy. Reading b -> ll as `fwd[b][ll] | 0n`
      throws a TypeError when b -> ll is absent (undefined | 0n), before
      anything is written. When costDiff is negative the last step deletes
      l -> b where the canonical copy deletes b -> l. */
  function StaleRearrange(g: Graph, b: Id, l: Id, ll: Id): (r: Result<Graph>)
    requires Chain(g, b, l, ll)
    ensures r.Err? <==> !HasEdge(g.fwd, b, ll)
    ensures r.Ok? ==> r.value.fwd.Keys == g.fwd.Keys && r.value.rev.Keys == g.rev.Keys
  {
    if !HasEdge(g.fwd, b, ll) then Err("TypeError")
    else
      var c := CostDiff(g, b, l, ll);
      var netted := Cancel(Merge(g, b, l, ll), b, ll);
      if c >= 0 then Ok(Residual(netted, b, l, ll, c))
      else Ok(Del(Reset(netted, l, ll, Flip(c)), l, b))
  }

  /** With the direct edge present and costDiff >= 0, the stale copy
      consolidates exactly as the canonical one. */
  lemma StaleAgreesWhenCovered(g: Graph, b: Id, l: Id, ll: Id)
    requires Chain(g, b, l, ll) && HasEdge(g.fwd, b, ll) && CostDiff(g, b, l, ll) >= 0
    ensures StaleRearrange(g, b, l, ll) == Ok(Rearrange(g, b, l, ll))
  {
  }

  /** The stale consolidation, when it does not throw, keeps the graph clean. */
  lemma StaleClean(g: Graph, b: Id, l: Id, ll: Id)
    requires Clean(g) && Chain(g, b, l, ll) && HasEdge(g.fwd, b, ll)
    ensures StaleRearrange(g, b, l, ll).Ok?
    ensures Clean(StaleRearrange(g, b, l, ll).value)
  {
    var c := CostDiff(g, b, l, ll);
    if c >= 0 {
      StaleAgreesWhenCovered(g, b, l, ll);
      RearrangeClean(g, b, l, ll);
    } else {
      var g1 := Merge(g, b, l, ll);
      MergeAgree(g, b, l, ll);
      MergePositive(g, b, l, ll);
      MergeNoSelfLoop(g, b, l, ll);
      MergeEdges(g, b, l, ll);
      var g2 := Cancel(g1, b, ll);
      CancelAgree(g1, b, ll);
      CancelPositive(g1, b, ll);
      CancelNoSelfLoop(g1, b, ll);
      CancelKeepsChain(g1, b, l, ll);
      var g3 := Reset(g2, l, ll, Flip(c));
      ResetAgree(g2, l, ll, Flip(c));
      ResetPositive(g2, l, ll, Flip(c));
      ResetNoSelfLoop(g2, l, ll, Flip(c));
      DelAgree(g3, l, b);
      DelPositive(g3, l, b);
      DelNoSelfLoop(g3, l, b);
    }
  }

  /** When costDiff is negative, b -> l survives at its old amount although
      that amount has already been added to b -> ll. */
  lemma StaleKeepsMergedEdge(g: Graph, b: Id, l: Id, ll: Id)
    requires Clean(g) && Chain(g, b, l, ll) && HasEdge(g.fwd, b, ll) && CostDiff(g, b, l, ll) < 0
    ensures StaleRearrange(g, b, l, ll).Ok?
    ensures HasEdge(StaleRearrange(g, b, l, ll).value.fwd, b, l)
    ensures StaleRearrange(g, b, l, ll).value.fwd[b][l] == g.fwd[b][l]
  {
    var c := CostDiff(g, b, l, ll);
    var g1 := Merge(g, b, l, ll);
    MergeEdges(g, b, l, ll);
    var g2 := Cancel(g1, b, ll);
    CancelKeepsChain(g1, b, l, ll);
    var g3 := Reset(g2, l, ll, Flip(c));
    assert Amt(g3.fwd, b, l) == g.fwd[b][l];
  }

  /** When costDiff is negative, b and ll distinct and no l -> b edge: b ends
      up owing b -> l's amount more, and l is owed that much more, so net
      positions are not conserved. */
  lemma StaleNetDrift(g: Graph, b: Id, l: Id, ll: Id, n: Id)
    requires Clean(g) && Chain(g, b, l, ll) && HasEdge(g.fwd, b, ll) && CostDiff(g, b, l, ll) < 0
    requires b != ll && !HasEdge(g.fwd, l, b)
    ensures StaleRearrange(g, b, l, ll).Ok?
    ensures var x := g.fwd[b][l];
      Net(StaleRearrange(g, b, l, ll).value, n) == Net(g, n) + (if n == b then x else 0) - (if n == l then x else 0)
  {
    var c := CostDiff(g, b, l, ll);
    var g1 := Merge(g, b, l, ll);
    MergeNet(g, b, l, ll, n);
    MergeAgree(g, b, l, ll);
    MergeEdges(g, b, l, ll);
    assert Amt(g1.fwd, l, b) == 0;
    var g2 := Cancel(g1, b, ll);
    CancelNet(g1, b, ll, n);
    CancelAgree(g1, b, ll);
    CancelKeepsChain(g1, b, l, ll);
    assert Amt(g2.fwd, l, b) == 0;
    var g3 := Reset(g2, l, ll, Flip(c));
    ResetNet(g2, l, ll, Flip(c), n);
    ResetAgree(g2, l, ll, Flip(c));
    assert Amt(g3.fwd, l, b) == 0;
    DelNet(g3, l, b, n);
  }

  /** A -> B 4, B -> C 10, A -> C 1. */
  function DriftGraph(): Graph
  {
    Graph(map["A" := map["B" := 4, "C" := 1], "B" := map["C" := 10], "C" := map[]],
          map["A" := map[], "B" := map["A" := 4], "C" := map["A" := 1, "B" := 10]])
  }

  /** A -> B 4, B -> C 10. */
  function ThrowGraph(): Graph
  {
    Graph(map["A" := map["B" := 4], "B" := map["C" := 10], "C" := map[]],
          map["A" := map[], "B" := map["A" := 4], "C" := map["B" := 10]])
  }

  lemma DriftGraphClean()
    ensures Clean(DriftGraph())
  {
    DriftGraphAgree();
  }

  lemma DriftGraphAgree()
    ensures Agree(DriftGraph())
  {
    var g := DriftGraph();
    forall a, b | HasEdge(g.fwd, a, b) ensures HasEdge(g.rev, b, a) && g.rev[b][a] == g.fwd[a][b] {
      assert (a == "A" && (b == "B" || b == "C")) || (a == "B" && b == "C");
    }
    forall a, b | HasEdge(g.rev, b, a) ensures HasEdge(g.fwd, a, b) {
      assert (b == "B" && a == "A") || (b == "C" && (a == "A" || a == "B"));
    }
  }

  lemma ThrowGraphClean()
    ensures Clean(ThrowGraph())
  {
    ThrowGraphAgree();
  }

  lemma ThrowGraphAgree()
    ensures Agree(ThrowGraph())
  {
    var g := ThrowGraph();
    forall a, b | HasEdge(g.fwd, a, b) ensures HasEdge(g.rev, b, a) && g.rev[b][a] == g.fwd[a][b] {
      assert (a == "A" && b == "B") || (a == "B" && b == "C");
    }
    forall a, b | HasEdge(g.rev, b, a) ensures HasEdge(g.fwd, a, b) {
      assert (b == "B" && a == "A") || (b == "C" && a == "B");
    }
  }

  /** A -> B -> C is a chain of the drift graph whose first edge is the
      smaller one, with a direct A -> C and no B -> A. */
  lemma DriftGraphChain()
    ensures Chain(DriftGraph(), "A", "B", "C") && HasEdge(DriftGraph().fwd, "A", "C")
    ensures CostDiff(DriftGraph(), "A", "B", "C") == -6 && !HasEdge(DriftGraph().fwd, "B", "A")
  {
  }

  /** Consolidating A -> B -> C in DriftGraph leaves A owing 4 more than it did. */
  lemma StaleDriftExample()
    ensures StaleRearrange(DriftGraph(), "A", "B", "C").Ok?
    ensures Net(StaleRearrange(DriftGraph(), "A", "B", "C").value, "A") == Net(DriftGraph(), "A") + 4
  {
    var g := DriftGraph();
    DriftGraphClean();
    DriftGraphChain();
    StaleNetDrift(g, "A", "B", "C", "A");
  }

  /** Consolidating A -> B -> C in ThrowGraph throws, because A -> C is absent. */
  lemma StaleThrowExample()
    ensures Clean(ThrowGraph()) && Chain(ThrowGraph(), "A", "B", "C")
    ensures StaleRearrange(ThrowGraph(), "A", "B", "C") == Err("TypeError")
  {
    var g := ThrowGraph();
    ThrowGraphClean();
    assert HasEdge(g.fwd, "A", "B") && HasEdge(g.fwd, "B", "C") && !HasEdge(g.fwd, "A", "C");
  }

  /** A consolidation the stale pass performs: borrower, middle node, onward lender. */
  type Triple = (Id, Id, Id)

  /** The outcome of consolidating the chains of `trace` in order with the
      stale rearrangeTriplet, starting from `g`; the first TypeError ends the
      run. A triple that is not a chain of the graph it would be applied to
      is not a step collapseGraph can take, and yields Err("NotAChain"). */
  ghost function StaleRun(g: Graph, trace: seq<Triple>): Result<Graph>
    decreases |trace|
  {
    if trace == [] then Ok(g)
    else
      var h :- StaleRun(g, trace[..|trace| - 1]);
      var t := trace[|trace| - 1];
      if Chain(h, t.0, t.1, t.2) then StaleRearrange(h, t.0, t.1, t.2) else Err("NotAChain")
  }

  lemma StaleRunStep(g: Graph, trace: seq<Triple>, h: Graph, t: Triple)
    requires StaleRun(g, trace) == Ok(h) && Chain(h, t.0, t.1, t.2)
    ensures StaleRun(g, trace + [t]) == StaleRearrange(h, t.0, t.1, t.2)
  {
    assert (trace + [t])[..|trace|] == trace;
  }

  /** Every middle node of `trace` is a key of `keys` outside `todo`. */
  ghost predicate MiddlesOutside(trace: seq<Triple>, keys: set<Id>, todo: set<Id>)
  {
    forall i :: 0 <= i < |trace| ==> trace[i].1 in keys && trace[i].1 !in todo
  }

  /** No two chains of `trace` share their middle node. */
  ghost predicate DistinctMiddles(trace: seq<Triple>)
  {
    forall i, j :: 0 <= i < j < |trace| ==> trace[i].1 != trace[j].1
  }

  /** What a pass of the stale collapseGraph leaves, from `g0` to `g`: the
      same keys and a clean graph; the stale rearrangeTriplet applied along
      `trace`, every step succeeding except for the last one when `thrown`,
      which throws and leaves the graph as it was; the chains' middle nodes
      are distinct keys, so at most one per node; when the pass broke at
      `stop`, that node cannot be consolidated and was not consolidated
      before; when it neither broke nor threw, every key was consolidated
      once. */
  ghost predicate PassOutcome(g0: Graph, g: Graph, thrown: bool, trace: seq<Triple>, stop: Option<Id>)
  {
    && g.fwd.Keys == g0.fwd.Keys && g.rev.Keys == g0.rev.Keys && Clean(g)
    && (!thrown ==> StaleRun(g0, trace) == Ok(g))
    && (thrown ==> |trace| > 0 && StaleRun(g0, trace[..|trace| - 1]) == Ok(g) && StaleRun(g0, trace) == Err("TypeError"))
    && MiddlesOutside(trace, g0.fwd.Keys, {}) && DistinctMiddles(trace)
    && |trace| <= |g0.fwd.Keys|
    && (stop.Some? ==> !thrown && stop.value in g.fwd && Idle(g, stop.value))
    && (stop.Some? ==> forall i :: 0 <= i < |trace| ==> trace[i].1 != stop.value)
    && (!thrown && stop.None? ==> |trace| == |g0.fwd.Keys|)
  }

  /** Part way through a pass from `g0` to `g`, with `todo` still to visit:
      the same keys, a clean graph, the stale rearrangeTriplet applied along
      `trace` without a throw, and one chain per node visited. */
  ghost predicate PassSoFar(g0: Graph, g: Graph, trace: seq<Triple>, todo: set<Id>)
  {
    && todo <= g0.fwd.Keys
    && g.fwd.Keys == g0.fwd.Keys && g.rev.Keys == g0.rev.Keys && Clean(g)
    && StaleRun(g0, trace) == Ok(g)
    && MiddlesOutside(trace, g0.fwd.Keys, todo) && DistinctMiddles(trace)
    && |trace| + |todo| == |g0.fwd.Keys|
  }

  /** Consolidating the chain `t` at a node still to visit either continues
      the pass or, on a TypeError, ends it. */
  lemma PassAdvance(g0: Graph, h: Graph, g: Graph, trace: seq<Triple>, todo: set<Id>, t: Triple, thrown: bool)
    requires PassSoFar(g0, h, trace, todo) && t.1 in todo && Chain(h, t.0, t.1, t.2)
    requires StaleRearrange(h, t.0, t.1, t.2) == if thrown then Err("TypeError") else Ok(g)
    requires thrown ==> g == h
    requires Clean(g)
    ensures !thrown ==> PassSoFar(g0, g, trace + [t], todo - {t.1})
    ensures thrown ==> PassOutcome(g0, g, true, trace + [t], None)
  {
    StaleRunStep(g0, trace, h, t);
    AppendMiddle(trace, g0.fwd.Keys, todo, t);
    TakeOne(todo, t.1);
    assert (trace + [t])[..|trace|] == trace;
  }

  /** Breaking at a node that cannot be consolidated ends the pass. */
  lemma PassBreak(g0: Graph, g: Graph, trace: seq<Triple>, todo: set<Id>, n: Id)
    requires PassSoFar(g0, g, trace, todo) && n in todo && Idle(g, n)
    ensures PassOutcome(g0, g, false, trace, Some(n))
  {
  }

  /** A pass that visited every node consolidated each once. */
  lemma PassDone(g0: Graph, g: Graph, trace: seq<Triple>)
    requires PassSoFar(g0, g, trace, {})
    ensures PassOutcome(g0, g, false, trace, None)
  {
  }

  /** Consolidating at a node still to be visited keeps the middles distinct. */
  lemma AppendMiddle(trace: seq<Triple>, keys: set<Id>, todo: set<Id>, t: Triple)
    requires MiddlesOutside(trace, keys, todo) && DistinctMiddles(trace) && t.1 in todo && todo <= keys
    ensures MiddlesOutside(trace + [t], keys, todo - {t.1}) && DistinctMiddles(trace + [t])
  {
  }

  lemma TakeOne(s: set<Id>, x: Id)
    requires x in s
    ensures |s - {x}| == |s| - 1
  {
  }

  /** The settlement graph of scripts/runExpenseSettlement.ts. */
  class StaleSettlementGraph {
    const expenses: seq<Expense>
    var fwd: Index
    var rev: Index

    function State(): Graph
      reads this
    {
      Graph(fwd, rev)
    }

    /** The stale constructor only stores the expenses: it never builds the graph. */
    constructor (es: seq<Expense>)
      ensures expenses == es
      ensures State() == Empty
    {
      expenses := es;
      fwd := map[];
      rev := map[];
    }

    /** Record every expense in order, as the canonical buildGraph does. */
    method BuildGraph()
      modifies this
      ensures State() == Replay(old(State()), expenses)
    {
      ghost var g0 := State();
      var i := 0;
      while i < |expenses|
        invariant 0 <= i <= |expenses|
        invariant State() == Replay(g0, expenses[..i])
      {
        var e := expenses[i];
        ReplayStep(g0, expenses, i);
        fwd := fwd[e.borrower := RowOf(fwd, e.borrower)];
        fwd := fwd[e.lender := RowOf(fwd, e.lender)];
        rev := rev[e.borrower := RowOf(rev, e.borrower)];
        rev := rev[e.lender := RowOf(rev, e.lender)];
        fwd := fwd[e.borrower := fwd[e.borrower][e.lender := e.amount]];
        rev := rev[e.lender := rev[e.lender][e.borrower := e.amount]];
        i := i + 1;
      }
      assert expenses[..i] == expenses;
    }

    /** Delete b -> l from both indices. */
    method PruneEdge(b: Id, l: Id)
      requires b in fwd && l in rev
      modifies this
      ensures State() == Del(old(State()), b, l)
    {
      fwd := fwd[b := fwd[b] - {l}];
      rev := rev[l := rev[l] - {b}];
    }

    /** Set b -> l to `v` in both indices; 0 prunes the edge. */
    method ResetEdgeAmount(b: Id, l: Id, v: int)
      requires b in fwd && l in rev
      modifies this
      ensures State() == Reset(old(State()), b, l, v)
    {
      if v == 0 {
        PruneEdge(b, l);
        return;
      }
      fwd := fwd[b := fwd[b][l := v]];
      rev := rev[l := rev[l][b := v]];
    }

    /** Net a -> c against c -> a when both are truthy. */
    method PruneBideractionalEdge(a: Id, c: Id)
      requires HasRows(State(), a) && HasRows(State(), c)
      modifies this
      ensures State() == Cancel(old(State()), a, c)
    {
      if !Truthy(fwd, a, c) || !Truthy(fwd, c, a) {
        return;
      }
      var edgeDiff := fwd[a][c] - fwd[c][a];
      if edgeDiff == 0 {
        PruneEdge(a, c);
        PruneEdge(c, a);
      } else if edgeDiff > 0 {
        PruneEdge(c, a);
        ResetEdgeAmount(a, c, edgeDiff);
      } else {
        PruneEdge(a, c);
        ResetEdgeAmount(c, a, -edgeDiff);
      }
    }

    /** The stale rearrangeTriplet; `thrown` reports the TypeError. */
    method RearrangeTriplet(b: Id, l: Id, ll: Id) returns (thrown: bool)
      requires Chain(State(), b, l, ll)
      modifies this
      ensures StaleRearrange(old(State()), b, l, ll) == if thrown then Err("TypeError") else Ok(State())
      ensures thrown ==> State() == old(State())
    {
      ghost var g := State();
      var costDiff := fwd[b][l] - fwd[l][ll];
      assert costDiff == CostDiff(g, b, l, ll);
      if ll !in fwd[b] {
        return true;
      }
      thrown := false;
      if costDiff >= 0 {
        var merged := fwd[b][ll] + fwd[l][ll];
        assert merged == Merged(g, b, l, ll);
        ResetEdgeAmount(b, ll, merged);
        PruneBideractionalEdge(b, ll);
        ghost var netted := State();
        ResetEdgeAmount(b, l, costDiff);
        PruneEdge(l, ll);
        ResidualBranches(netted, b, l, ll, costDiff);
      } else {
        var merged := fwd[b][ll] + fwd[b][l];
        assert merged == Merged(g, b, l, ll);
        ResetEdgeAmount(b, ll, merged);
        PruneBideractionalEdge(b, ll);
        ResetEdgeAmount(l, ll, -costDiff);
        PruneEdge(l, b);
      }
    }

    /** The body of a pass of the stale collapseGraph for one node `lender`.
        `visited` is false when the node has no borrower or no onward lender
        (or either is the empty identity), where the pass breaks; `thrown`
        reports the TypeError of the consolidation. The ghost `b` and `ll` are
        the borrower and the onward lender picked. */
    method VisitLender(lender: Id) returns (visited: bool, thrown: bool, ghost b: Id, ghost ll: Id)
      requires Clean(State()) && lender in fwd
      modifies this
      ensures visited ==> b in old(rev[lender]) && ll in old(fwd[lender]) && b != "" && ll != ""
      ensures visited ==> Chain(old(State()), b, lender, ll)
      ensures visited ==> StaleRearrange(old(State()), b, lender, ll) == if thrown then Err("TypeError") else Ok(State())
      ensures fwd.Keys == old(fwd.Keys) && rev.Keys == old(rev.Keys)
      ensures Clean(State())
      ensures !visited || thrown ==> State() == old(State())
      ensures !visited ==> !thrown && Idle(State(), lender)
      ensures Settled(old(State())) ==> !visited
    {
      var borrower := First(rev[lender]);
      var lendersLender := First(fwd[lender]);
      if borrower.None? || borrower.value == "" || lendersLender.None? || lendersLender.value == "" {
        return false, false, "", "";
      }
      ghost var g := State();
      if Settled(g) {
        SettledIdle(g, lender);
      }
      b, ll := borrower.value, lendersLender.value;
      FoundChain(g, b, lender, ll);
      visited := true;
      thrown := RearrangeTriplet(borrower.value, lender, lendersLender.value);
      if !thrown {
        StaleClean(g, b, lender, ll);
      }
    }

    /** One pass of the stale collapseGraph's `for (var lender in ...)`: visit
        the keys in some order, break at the first node without a borrower or
        an onward lender, and stop at a TypeError. The ghost `trace` lists the
        chains consolidated, in order, the last one being the one that threw
        when `thrown`; their middle nodes are distinct keys. The ghost `stop` is
        the node the pass broke at, if it broke; otherwise every key was the
        middle of a chain. */
    method Pass() returns (thrown: bool, ghost trace: seq<Triple>, ghost stop: Option<Id>)
      requires Clean(State())
      modifies this
      ensures PassOutcome(old(State()), State(), thrown, trace, stop)
      ensures Settled(old(State())) ==> !thrown && trace == []
    {
      ghost var g0 := State();
      thrown, trace, stop := false, [], None;
      var todo := fwd.Keys;
      while todo != {}
        invariant PassSoFar(g0, State(), trace, todo)
        invariant Settled(g0) ==> trace == [] && State() == g0
        decreases |todo|
      {
        var lender :| lender in todo;
        ghost var h := State();
        var visited;
        ghost var b, ll;
        visited, thrown, b, ll := VisitLender(lender);
        if !visited {
          PassBreak(g0, State(), trace, todo, lender);
          stop := Some(lender);
          return;
        }
        PassAdvance(g0, h, State(), trace, todo, (b, lender, ll), thrown);
        todo := todo - {lender};
        trace := trace + [(b, lender, ll)];
        if thrown {
          return;
        }
      }
      PassDone(g0, State(), trace);
    }

    /** The stale collapseGraph: `graphPruned` is cleared and never raised, so
        the outer loop runs a single pass, and a TypeError ends it. Its
        outcome is that of the pass: at most one consolidation per node, the
        stale rearrangeTriplet applied along the trace, and a break at a node
        it cannot consolidate. */
    method CollapseGraph() returns (thrown: bool, ghost trace: seq<Triple>, ghost stop: Option<Id>)
      requires Clean(State())
      modifies this
      ensures fwd.Keys == old(fwd.Keys) && rev.Keys == old(rev.Keys)
      ensures Clean(State())
      ensures !thrown ==> StaleRun(old(State()), trace) == Ok(State())
      ensures thrown ==> |trace| > 0 && StaleRun(old(State()), trace[..|trace| - 1]) == Ok(State())
      ensures thrown ==> StaleRun(old(State()), trace) == Err("TypeError")
      ensures forall i :: 0 <= i < |trace| ==> trace[i].1 in old(fwd.Keys)
      ensures forall i, j :: 0 <= i < j < |trace| ==> trace[i].1 != trace[j].1
      ensures |trace| <= |old(fwd.Keys)|
      ensures stop.Some? ==> !thrown && stop.value in fwd && Idle(State(), stop.value)
      ensures stop.Some? ==> forall i :: 0 <= i < |trace| ==> trace[i].1 != stop.value
      ensures !thrown && stop.None? ==> |trace| == |old(fwd.Keys)|
      ensures Settled(old(State())) ==> !thrown && State() == old(State())
    {
      thrown, trace, stop := false, [], None;
      var graphPruned := true;
      while graphPruned
        invariant graphPruned ==> State() == old(State()) && !thrown && trace == [] && stop.None?
        invariant !graphPruned ==> PassOutcome(old(State()), State(), thrown, trace, stop)
        invariant !graphPruned && Settled(old(State())) ==> !thrown && trace == []
        decreases graphPruned
      {
        graphPruned := false;
        thrown, trace, stop := Pass();
        if thrown {
          return;
        }
      }
    }
  }
}
