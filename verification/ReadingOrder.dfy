/** Acyclicity of the reading-order graph of a page (crates/ferrodoc-ir/src/lib.rs). */
module ReadingOrder {
  import opened Collections
  import opened DocumentIr

  predicate EdgesWithin(ids: set<Id>, edges: seq<ReadingOrderEdge>) {
    forall e :: e in edges ==> e.before in ids && e.after in ids
  }

  /** A walk along edges, one edge per step. */
  ghost predicate IsWalk(edges: seq<ReadingOrderEdge>, walk: seq<Id>) {
    forall i :: 0 <= i < |walk| - 1 ==> ReadingOrderEdge(walk[i], walk[i + 1]) in edges
  }

  ghost predicate IsCycle(edges: seq<ReadingOrderEdge>, walk: seq<Id>) {
    |walk| >= 2 && walk[0] == walk[|walk| - 1] && IsWalk(edges, walk)
  }

  ghost predicate Acyclic(edges: seq<ReadingOrderEdge>) {
    !exists walk :: IsCycle(edges, walk)
  }

  /** Targets of the edges leaving `id`, in edge order. */
  function Outgoing(edges: seq<ReadingOrderEdge>, id: Id): seq<Id> {
    if edges == [] then []
    else
      var rest := Outgoing(edges[..|edges| - 1], id);
      if edges[|edges| - 1].before == id then rest + [edges[|edges| - 1].after] else rest
  }

  /** How many edges enter `id` from a region outside `done`. */
  ghost function Pending(edges: seq<ReadingOrderEdge>, id: Id, done: set<Id>): nat {
    if edges == [] then 0
    else
      var last := edges[|edges| - 1];
      Pending(edges[..|edges| - 1], id, done) + if last.after == id && last.before !in done then 1 else 0
  }

  lemma {:induction false} PendingStep(edges: seq<ReadingOrderEdge>, v: Id, done: set<Id>, id: Id)
    requires id !in done
    ensures Pending(edges, v, done) == Pending(edges, v, done + {id}) + multiset(Outgoing(edges, id))[v]
  {
    if edges != [] {
      PendingStep(edges[..|edges| - 1], v, done, id);
    }
  }

  lemma {:induction false} PendingZero(edges: seq<ReadingOrderEdge>, v: Id, done: set<Id>)
    ensures Pending(edges, v, done) == 0
      <==> forall e :: e in edges && e.after == v ==> e.before in done
  {
    if edges != [] {
      var n := |edges| - 1;
      PendingZero(edges[..n], v, done);
      assert edges == edges[..n] + [edges[n]];
    }
  }

  lemma {:induction false} OutgoingMember(edges: seq<ReadingOrderEdge>, id: Id, v: Id)
    ensures v in Outgoing(edges, id) <==> ReadingOrderEdge(id, v) in edges
  {
    if edges != [] {
      var n := |edges| - 1;
      OutgoingMember(edges[..n], id, v);
      assert edges == edges[..n] + [edges[n]];
    }
  }

  /** A numbering that grows along every edge leaves no room for a cycle. */
  lemma RankedIsAcyclic(edges: seq<ReadingOrderEdge>, rank: map<Id, nat>)
    requires forall e :: e in edges ==> e.before in rank && e.after in rank && rank[e.before] < rank[e.after]
    ensures Acyclic(edges)
  {
    forall walk | IsCycle(edges, walk)
      ensures false
    {
      RankGrows(edges, rank, walk);
    }
  }

  lemma {:induction false} RankGrows(edges: seq<ReadingOrderEdge>, rank: map<Id, nat>, walk: seq<Id>)
    requires forall e :: e in edges ==> e.before in rank && e.after in rank && rank[e.before] < rank[e.after]
    requires |walk| >= 2 && IsWalk(edges, walk)
    ensures walk[0] in rank && walk[|walk| - 1] in rank && rank[walk[0]] < rank[walk[|walk| - 1]]
  {
    assert ReadingOrderEdge(walk[0], walk[1]) in edges;
    if |walk| > 2 {
      forall i | 0 <= i < |walk[1..]| - 1
        ensures ReadingOrderEdge(walk[1..][i], walk[1..][i + 1]) in edges
      {
        assert ReadingOrderEdge(walk[i + 1], walk[i + 2]) in edges;
      }
      RankGrows(edges, rank, walk[1..]);
    }
  }

  /** A walk inside `stuck` that visits nobody twice. */
  ghost predicate Trail(edges: seq<ReadingOrderEdge>, stuck: set<Id>, walk: seq<Id>) {
    && IsWalk(edges, walk)
    && (forall i :: 0 <= i < |walk| ==> walk[i] in stuck)
    && (forall i, j :: 0 <= i < j < |walk| ==> walk[i] != walk[j])
  }

  ghost predicate HasPredecessor(edges: seq<ReadingOrderEdge>, stuck: set<Id>, v: Id) {
    exists u :: u in stuck && ReadingOrderEdge(u, v) in edges
  }

  /** Walking backwards inside a finite set where everyone has a predecessor must repeat. */
  lemma {:induction false} BackwardsWalk(edges: seq<ReadingOrderEdge>, stuck: set<Id>, walk: seq<Id>)
    requires forall v {:trigger HasPredecessor(edges, stuck, v)} :: v in stuck ==> HasPredecessor(edges, stuck, v)
    requires walk != [] && Trail(edges, stuck, walk)
    ensures !Acyclic(edges)
    decreases |stuck| - |walk|
  {
    assert walk[0] in stuck && HasPredecessor(edges, stuck, walk[0]);
    var u :| u in stuck && ReadingOrderEdge(u, walk[0]) in edges;
    DistinctFits(walk, stuck);
    if i :| 0 <= i < |walk| && walk[i] == u {
      CloseCycle(edges, walk, i);
    } else {
      ExtendTrail(edges, stuck, walk, u);
      DistinctFits([u] + walk, stuck);
      BackwardsWalk(edges, stuck, [u] + walk);
    }
  }

  lemma CloseCycle(edges: seq<ReadingOrderEdge>, walk: seq<Id>, i: nat)
    requires i < |walk| && IsWalk(edges, walk) && ReadingOrderEdge(walk[i], walk[0]) in edges
    ensures !Acyclic(edges)
  {
    var cycle := [walk[i]] + walk[..i + 1];
    forall k | 0 <= k < |cycle| - 1
      ensures ReadingOrderEdge(cycle[k], cycle[k + 1]) in edges
    {
      if k > 0 {
        assert cycle[k] == walk[k - 1] && cycle[k + 1] == walk[(k - 1) + 1];
      }
    }
    assert IsCycle(edges, cycle);
  }

  lemma ExtendTrail(edges: seq<ReadingOrderEdge>, stuck: set<Id>, walk: seq<Id>, u: Id)
    requires walk != [] && Trail(edges, stuck, walk)
    requires u in stuck && u !in walk && ReadingOrderEdge(u, walk[0]) in edges
    ensures Trail(edges, stuck, [u] + walk)
  {
    var longer := [u] + walk;
    forall k | 0 <= k < |longer| - 1
      ensures ReadingOrderEdge(longer[k], longer[k + 1]) in edges
    {
      if k > 0 {
        assert longer[k] == walk[k - 1] && longer[k + 1] == walk[(k - 1) + 1];
      }
    }
  }

  lemma {:induction false} DistinctFits(walk: seq<Id>, s: set<Id>)
    requires forall i :: 0 <= i < |walk| ==> walk[i] in s
    requires forall i, j :: 0 <= i < j < |walk| ==> walk[i] != walk[j]
    ensures |walk| <= |s|
  {
    if walk != [] {
      DistinctFits(walk[1..], s - {walk[0]});
    }
  }

  /** The indegree map counts, for each region, the entering edges whose source is not done. */
  ghost predicate Counts(
      edges: seq<ReadingOrderEdge>, ids: set<Id>, indegree: map<Id, nat>, done: set<Id>, extra: seq<Id>) {
    indegree.Keys == ids && forall v :: v in ids ==> indegree[v] == Pending(edges, v, done) + multiset(extra)[v]
  }

  /** The ready stack holds exactly the unvisited regions without pending edges, each once. */
  ghost predicate IsReady(ready: seq<Id>, indegree: map<Id, nat>, done: set<Id>) {
    && (forall v :: v in ready <==> v in indegree && v !in done && indegree[v] == 0)
    && (forall i, j :: 0 <= i < j < |ready| ==> ready[i] != ready[j])
  }

  /** Visited regions are numbered along the edges, and closed under predecessors. */
  ghost predicate Ranked(edges: seq<ReadingOrderEdge>, rank: map<Id, nat>) {
    && (forall v :: v in rank ==> rank[v] < |rank|)
    && (forall e :: e in edges && e.after in rank ==> e.before in rank && rank[e.before] < rank[e.after])
  }

  /** Between two visits: the counts, the ready stack and the numbering agree. */
  ghost predicate Working(
      ids: set<Id>, edges: seq<ReadingOrderEdge>, indegree: map<Id, nat>, ready: seq<Id>, rank: map<Id, nat>) {
    Counts(edges, ids, indegree, rank.Keys, []) && IsReady(ready, indegree, rank.Keys) && Ranked(edges, rank)
  }

  lemma NextIsReady(
      ids: set<Id>, edges: seq<ReadingOrderEdge>, indegree: map<Id, nat>, ready: seq<Id>, rank: map<Id, nat>)
    requires Working(ids, edges, indegree, ready, rank) && ready != []
    ensures var id := ready[|ready| - 1]; id in ids && id !in rank && Pending(edges, id, rank.Keys) == 0
  {
    assert ready[|ready| - 1] in ready;
  }

  /** Takes the last ready region off the stack and releases its successors. */
  method Visit(
      ids: set<Id>, ghost edges: seq<ReadingOrderEdge>, indegree0: map<Id, nat>, ready0: seq<Id>, next: seq<Id>,
      ghost rank0: map<Id, nat>)
    returns (indegree: map<Id, nat>, ready: seq<Id>, ghost rank: map<Id, nat>)
    requires EdgesWithin(ids, edges) && ready0 != [] && next == Outgoing(edges, ready0[|ready0| - 1])
    requires Working(ids, edges, indegree0, ready0, rank0)
    ensures Working(ids, edges, indegree, ready, rank)
    ensures |rank| == |rank0| + 1 && (rank0.Keys <= ids ==> rank.Keys <= ids)
    ensures ids - rank.Keys < ids - rank0.Keys
  {
    var id := ready0[|ready0| - 1];
    NextIsReady(ids, edges, indegree0, ready0, rank0);
    VisitCounts(edges, ids, indegree0, rank0.Keys, id);
    VisitRanked(edges, rank0, id);
    rank := rank0[id := |rank0|];
    assert rank.Keys == rank0.Keys + {id};
    assert id in ids - rank0.Keys;
    indegree, ready := Relax(ids, edges, indegree0, ready0[..|ready0| - 1], next, id, rank0.Keys);
  }

  /** The worklist: it accepts exactly the graphs without a directed cycle. */
  method EnsureAcyclic(ids: set<Id>, edges: seq<ReadingOrderEdge>) returns (ok: bool)
    requires EdgesWithin(ids, edges)
    ensures ok <==> Acyclic(edges)
  {
    var indegree, outgoing := CountEdges(ids, edges);
    var ready := ReadyRegions(indegree);
    var visited := 0;
    ghost var rank: map<Id, nat> := map[];
    while ready != []
      invariant visited == |rank| && rank.Keys <= ids
      invariant Working(ids, edges, indegree, ready, rank)
      decreases ids - rank.Keys
    {
      var id := ready[|ready| - 1];
      var next := if id in outgoing then outgoing[id] else [];
      indegree, ready, rank := Visit(ids, edges, indegree, ready, next, rank);
      visited := visited + 1;
    }
    Exhausted(ids, edges, indegree, rank);
    ok := visited == |ids|;
  }

  /** With nothing ready, everybody was visited exactly when there is no cycle. */
  lemma Exhausted(ids: set<Id>, edges: seq<ReadingOrderEdge>, indegree: map<Id, nat>, rank: map<Id, nat>)
    requires EdgesWithin(ids, edges) && rank.Keys <= ids && Ranked(edges, rank)
    requires Counts(edges, ids, indegree, rank.Keys, []) && IsReady([], indegree, rank.Keys)
    ensures |rank| == |ids| <==> Acyclic(edges)
  {
    assert |rank| == |rank.Keys|;
    if |rank| == |ids| {
      SameSize(rank.Keys, ids);
      RankedIsAcyclic(edges, rank);
    } else {
      StuckHasCycle(ids, edges, indegree, rank.Keys);
    }
  }

  /** Every region's outgoing list; a region without one has no outgoing edge. */
  ghost predicate Lists(edges: seq<ReadingOrderEdge>, outgoing: map<Id, seq<Id>>) {
    forall u :: (if u in outgoing then outgoing[u] else []) == Outgoing(edges, u)
  }

  lemma CountOne(edges: seq<ReadingOrderEdge>, n: nat, ids: set<Id>, indegree: map<Id, nat>)
    requires n < |edges| && edges[n].after in ids && Counts(edges[..n], ids, indegree, {}, [])
    ensures Counts(edges[..n + 1], ids, indegree[edges[n].after := indegree[edges[n].after] + 1], {}, [])
  {
    assert edges[..n + 1][..n] == edges[..n];
  }

  lemma ListOne(edges: seq<ReadingOrderEdge>, n: nat, outgoing: map<Id, seq<Id>>)
    requires n < |edges| && Lists(edges[..n], outgoing)
    ensures var u := edges[n].before;
            var targets := if u in outgoing then outgoing[u] else [];
            Lists(edges[..n + 1], outgoing[u := targets + [edges[n].after]])
  {
    assert edges[..n + 1][..n] == edges[..n];
  }

  /** Indegrees and outgoing lists, one edge at a time. */
  method CountEdges(ids: set<Id>, edges: seq<ReadingOrderEdge>)
    returns (indegree: map<Id, nat>, outgoing: map<Id, seq<Id>>)
    requires EdgesWithin(ids, edges)
    ensures Counts(edges, ids, indegree, {}, [])
    ensures Lists(edges, outgoing)
  {
    indegree := map id | id in ids :: 0;
    outgoing := map[];
    var n := 0;
    while n < |edges|
      invariant 0 <= n <= |edges|
      invariant Counts(edges[..n], ids, indegree, {}, [])
      invariant Lists(edges[..n], outgoing)
    {
      var edge := edges[n];
      assert edge in edges;
      CountOne(edges, n, ids, indegree);
      ListOne(edges, n, outgoing);
      var targets := if edge.before in outgoing then outgoing[edge.before] else [];
      indegree := indegree[edge.after := indegree[edge.after] + 1];
      outgoing := outgoing[edge.before := targets + [edge.after]];
      n := n + 1;
    }
    assert edges[..n] == edges;
  }

  /** Numbering a region all of whose predecessors are numbered keeps the numbering. */
  lemma VisitRanked(edges: seq<ReadingOrderEdge>, rank: map<Id, nat>, id: Id)
    requires Ranked(edges, rank) && id !in rank && Pending(edges, id, rank.Keys) == 0
    ensures Ranked(edges, rank[id := |rank|])
    ensures forall v :: v in rank ==> Pending(edges, v, rank.Keys) == 0
  {
    PendingZero(edges, id, rank.Keys);
    var next := rank[id := |rank|];
    assert |next| == |rank| + 1 by {
      assert next.Keys == rank.Keys + {id};
      assert |next.Keys| == |rank.Keys| + 1;
    }
    forall v | v in rank
      ensures Pending(edges, v, rank.Keys) == 0
    {
      PendingZero(edges, v, rank.Keys);
    }
  }

  lemma VisitCounts(edges: seq<ReadingOrderEdge>, ids: set<Id>, indegree: map<Id, nat>, done: set<Id>, id: Id)
    requires Counts(edges, ids, indegree, done, []) && id in ids && id !in done
    ensures Counts(edges, ids, indegree, done + {id}, Outgoing(edges, id))
  {
    forall v | v in ids
      ensures indegree[v] == Pending(edges, v, done + {id}) + multiset(Outgoing(edges, id))[v]
    {
      PendingStep(edges, v, done, id);
    }
  }

  /** Removes the edges leaving the region just visited, pushing every region that becomes free. */
  method Relax(
      ids: set<Id>, ghost edges: seq<ReadingOrderEdge>, indegree0: map<Id, nat>, ready0: seq<Id>,
      next: seq<Id>, ghost id: Id, ghost before: set<Id>)
    returns (indegree: map<Id, nat>, ready: seq<Id>)
    requires EdgesWithin(ids, edges) && next == Outgoing(edges, id)
    requires id in ids && id !in before && Pending(edges, id, before) == 0
    requires forall v :: v in before ==> Pending(edges, v, before) == 0
    requires Counts(edges, ids, indegree0, before + {id}, next)
    requires IsReady(ready0, indegree0, before + {id})
    ensures Counts(edges, ids, indegree, before + {id}, [])
    ensures IsReady(ready, indegree, before + {id})
  {
    indegree, ready := indegree0, ready0;
    var k := 0;
    while k < |next|
      invariant 0 <= k <= |next|
      invariant Counts(edges, ids, indegree, before + {id}, next[k..])
      invariant IsReady(ready, indegree, before + {id})
    {
      var target := next[k];
      TargetIsOpen(edges, id, target, before);
      assert target in ids;
      RelaxCounts(edges, ids, indegree, before + {id}, next[k..]);
      assert next[k..][1..] == next[k + 1..];
      indegree := indegree[target := indegree[target] - 1];
      if indegree[target] == 0 {
        ready := ready + [target];
      }
      k := k + 1;
    }
  }

  /** Removing one edge to a target is counting one pending edge less. */
  lemma RelaxCounts(edges: seq<ReadingOrderEdge>, ids: set<Id>, indegree: map<Id, nat>, done: set<Id>, extra: seq<Id>)
    requires extra != [] && extra[0] in ids && Counts(edges, ids, indegree, done, extra)
    ensures indegree[extra[0]] > 0
    ensures Counts(edges, ids, indegree[extra[0] := indegree[extra[0]] - 1], done, extra[1..])
  {
    HeadTail(extra);
  }

  lemma TargetIsOpen(edges: seq<ReadingOrderEdge>, id: Id, target: Id, before: set<Id>)
    requires target in Outgoing(edges, id)
    requires id !in before && Pending(edges, id, before) == 0
    requires forall v :: v in before ==> Pending(edges, v, before) == 0
    ensures target !in before + {id}
    ensures exists e :: e in edges && e.after == target
  {
    OutgoingMember(edges, id, target);
    assert ReadingOrderEdge(id, target) in edges;
    PendingZero(edges, target, before);
  }

  /** With nothing ready and somebody unvisited, every unvisited region has an unvisited predecessor. */
  lemma StuckHasCycle(ids: set<Id>, edges: seq<ReadingOrderEdge>, indegree: map<Id, nat>, done: set<Id>)
    requires EdgesWithin(ids, edges) && done <= ids && |done| != |ids|
    requires Counts(edges, ids, indegree, done, []) && IsReady([], indegree, done)
    ensures !Acyclic(edges)
  {
    var stuck := ids - done;
    forall v | v in stuck
      ensures HasPredecessor(edges, stuck, v)
    {
      assert v !in [];
      OpenPredecessor(ids, edges, done, v);
    }
    var v := Unvisited(ids, done);
    assert Trail(edges, stuck, [v]);
    BackwardsWalk(edges, stuck, [v]);
  }

  lemma OpenPredecessor(ids: set<Id>, edges: seq<ReadingOrderEdge>, done: set<Id>, v: Id)
    requires EdgesWithin(ids, edges) && Pending(edges, v, done) > 0
    ensures HasPredecessor(edges, ids - done, v)
  {
    PendingZero(edges, v, done);
    var e :| e in edges && e.after == v && e.before !in done;
    assert e == ReadingOrderEdge(e.before, v) && e.before in ids - done;
  }

  lemma Unvisited(ids: set<Id>, done: set<Id>) returns (v: Id)
    requires done <= ids && |done| != |ids|
    ensures v in ids - done
  {
    assert done + (ids - done) == ids;
    v :| v in ids - done;
  }

  lemma SameSize<T>(a: set<T>, b: set<T>)
    requires a <= b && |a| == |b|
    ensures a == b
  {
    assert |b - a| == |b| - |a| by {
      assert a + (b - a) == b;
    }
    assert b - a == {};
  }

  /** The regions nothing has to precede, each once. */
  method ReadyRegions(indegree: map<Id, nat>) returns (ready: seq<Id>)
    ensures IsReady(ready, indegree, {})
  {
    ready := [];
    var left := indegree.Keys;
    while left != {}
      invariant left <= indegree.Keys
      invariant forall v :: v in ready <==> v in indegree && v !in left && indegree[v] == 0
      invariant forall i, j :: 0 <= i < j < |ready| ==> ready[i] != ready[j]
      decreases left
    {
      var v :| v in left;
      left := left - {v};
      if indegree[v] == 0 {
        ready := ready + [v];
      }
    }
  }
}
