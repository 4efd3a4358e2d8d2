/**
 * The edge list of one search side as a value: degree counts, and which edges lie on a path
 * from the start vertex to an end of the stream.
 */
module Edges {
  import opened Items

  /** An edge to a parent; `r == None` marks a vertex without parents. */
  datatype Edge = Edge(l: Version, r: Option<Version>)

  type EdgeList = seq<Option<Edge>>

  ghost function LiveCount(E: EdgeList): nat {
    if E == [] then 0 else LiveCount(E[..|E| - 1]) + if E[|E| - 1].Some? then 1 else 0
  }

  ghost function In(E: EdgeList, u: Version): nat {
    if E == [] then 0 else
      In(E[..|E| - 1], u) + if E[|E| - 1].Some? && E[|E| - 1].value.r == Some(u) then 1 else 0
  }

  ghost function Out(E: EdgeList, u: Version): nat {
    if E == [] then 0 else
      Out(E[..|E| - 1], u) + if E[|E| - 1].Some? && E[|E| - 1].value.l == u then 1 else 0
  }

  function Get(m: map<Version, int>, u: Version): int {
    if u in m then m[u] else 0
  }

  /** A later edge list: the same slots, some of them cleared. */
  ghost predicate Shrunk(E0: EdgeList, E: EdgeList) {
    |E| == |E0| && forall j :: 0 <= j < |E| ==> E[j] == E0[j] || E[j] == None
  }

  ghost predicate Touches(e: Edge, v: Version) {
    e.l == v || e.r == Some(v)
  }

  ghost predicate Gone(E: EdgeList, v: Version) {
    forall e :: Some(e) in E ==> !Touches(e, v)
  }

  lemma {:induction false} InPositive(E: EdgeList, u: Version)
    ensures In(E, u) > 0 <==> exists l :: Some(Edge(l, Some(u))) in E
  {
    if E != [] {
      InPositive(E[..|E| - 1], u);
      assert E == E[..|E| - 1] + [E[|E| - 1]];
      var x := E[|E| - 1];
      if x.Some? && x.value.r == Some(u) {
        assert Some(Edge(x.value.l, Some(u))) in E;
      }
    }
  }

  lemma {:induction false} OutPositive(E: EdgeList, u: Version)
    ensures Out(E, u) > 0 <==> exists r :: Some(Edge(u, r)) in E
  {
    if E != [] {
      OutPositive(E[..|E| - 1], u);
      assert E == E[..|E| - 1] + [E[|E| - 1]];
      var x := E[|E| - 1];
      if x.Some? && x.value.l == u {
        assert Some(Edge(u, x.value.r)) in E;
      }
    }
  }

  lemma {:induction false} Clear(E: EdgeList, i: nat, u: Version)
    requires i < |E| && E[i].Some?
    ensures In(E[i := None], u) == In(E, u) - if E[i].value.r == Some(u) then 1 else 0
    ensures Out(E[i := None], u) == Out(E, u) - if E[i].value.l == u then 1 else 0
    ensures LiveCount(E[i := None]) == LiveCount(E) - 1
  {
    var n := |E| - 1;
    if i < n {
      Clear(E[..n], i, u);
      assert E[i := None][..n] == E[..n][i := None];
    } else {
      assert E[i := None][..n] == E[..n];
    }
  }

  /**
   * What is known about one side while vertices are removed. `cand` holds the edges of all
   * processed vertices `seen`, `fwd` the vertices reachable from the start vertex and `bwd` those
   * from which an end of the stream is reachable, in both cases without touching a reported vertex.
   */
  datatype Flow = Flow(cand: iset<Edge>, fwd: iset<Version>, bwd: iset<Version>, seen: iset<Version>, start: Version) {
    ghost predicate EndOk(r: Option<Version>) {
      r.Some? ==> r.value in bwd
    }

    /** The edge lies on a path from the start to an end that avoids every reported vertex. */
    ghost predicate Useful(e: Edge) {
      e.l in fwd && EndOk(e.r)
    }

    ghost predicate Ok() {
      && (forall u :: u in bwd && u in seen ==> exists r :: Edge(u, r) in cand && EndOk(r))
      && (forall u :: u in fwd && u in seen && u != start ==> exists a :: a in fwd && Edge(a, Some(u)) in cand)
      && (forall e :: e in cand ==> e.l in seen)
      && (forall e :: e in cand && Useful(e) ==> e.l in bwd && (e.r.Some? ==> e.r.value in fwd))
      && (forall e :: e in cand && e.r.Some? ==> e.r.value != start && e.r.value != e.l && Edge(e.l, None) !in cand)
    }

    /** No useful edge touches `v`. */
    ghost predicate Doomed(v: Version) {
      forall e :: e in cand && Touches(e, v) ==> !Useful(e)
    }

    /** Live edges are candidates, and every useful candidate is live. */
    ghost predicate Safe(E: EdgeList) {
      && (forall e :: Some(e) in E ==> e in cand)
      && (forall e :: e in cand && Useful(e) ==> Some(e) in E)
    }

    ghost predicate Counts(E: EdgeList, indegree: map<Version, int>, outdegree: map<Version, int>) {
      && (forall u :: Get(indegree, u) == In(E, u))
      && (forall u :: Edge(u, None) !in cand ==> Get(outdegree, u) == Out(E, u))
    }

    /** Outside `pend`, live edges continue back to the start and forward to an end. */
    ghost predicate Tight(E: EdgeList, pend: iset<Version>) {
      && (forall e :: Some(e) in E ==> e.l == start || In(E, e.l) > 0 || e.l in pend)
      && (forall e :: Some(e) in E && e.r.Some? ==>
            e.r.value !in seen || Out(E, e.r.value) > 0 || e.r.value in pend)
    }

    ghost predicate Sane(E: EdgeList, indegree: map<Version, int>, outdegree: map<Version, int>, pend: iset<Version>) {
      Safe(E) && Counts(E, indegree, outdegree) && Tight(E, pend)
    }
  }

  /** Clearing one slot that holds a useless edge. */
  lemma CutSafe(flow: Flow, E: EdgeList, i: nat)
    requires flow.Safe(E) && i < |E| && E[i].Some? && !flow.Useful(E[i].value)
    ensures flow.Safe(E[i := None])
  {
    var F := E[i := None];
    forall f | f in flow.cand && flow.Useful(f) ensures Some(f) in F {
      var k :| 0 <= k < |E| && E[k] == Some(f);
      assert F[k] == Some(f);
    }
  }

  /** Lowering both counters of a cleared edge keeps them right. */
  lemma CutCounts(flow: Flow, E: EdgeList, i: nat, indegree: map<Version, int>, outdegree: map<Version, int>,
                  l: Version, r: Version)
    requires flow.Counts(E, indegree, outdegree) && i < |E| && E[i] == Some(Edge(l, Some(r))) && Edge(l, None) !in flow.cand
    ensures l in outdegree && r in indegree && outdegree[l] > 0 && indegree[r] > 0
    ensures flow.Counts(E[i := None], indegree[r := indegree[r] - 1], outdegree[l := outdegree[l] - 1])
  {
    assert Some(Edge(l, Some(r))) in E;
    InPositive(E, r);
    OutPositive(E, l);
    var F, ind, out := E[i := None], indegree[r := indegree[r] - 1], outdegree[l := outdegree[l] - 1];
    forall u ensures Get(ind, u) == In(F, u) && (Edge(u, None) !in flow.cand ==> Get(out, u) == Out(F, u)) {
      Clear(E, i, u);
    }
  }

  /** Clearing an edge leaves at most its two ends without a way back or on. */
  lemma CutTight(flow: Flow, E: EdgeList, i: nat, l: Version, r: Version, pend: iset<Version>)
    requires flow.Tight(E, pend) && i < |E| && E[i] == Some(Edge(l, Some(r)))
    requires In(E[i := None], r) > 0 || r in pend
    requires Out(E[i := None], l) > 0 || l in pend
    ensures flow.Tight(E[i := None], pend)
  {
    var F := E[i := None];
    forall f | Some(f) in F ensures Some(f) in E && (f.l == flow.start || In(F, f.l) > 0 || f.l in pend) {
      Clear(E, i, f.l);
    }
    forall f | Some(f) in F && f.r.Some?
      ensures Out(F, f.r.value) == Out(E, f.r.value) - if f.r.value == l then 1 else 0
    {
      Clear(E, i, f.r.value);
    }
  }

  /** When the last out-edge of a processed vertex is gone, no useful edge touches it. */
  lemma NoWayOn(flow: Flow, E: EdgeList, l: Version)
    requires flow.Ok() && flow.Safe(E) && l in flow.seen && Out(E, l) == 0
    ensures flow.Doomed(l)
  {
    OutPositive(E, l);
  }

  /** When the last in-edge of a vertex other than the start is gone, no useful edge touches it. */
  lemma NoWayBack(flow: Flow, E: EdgeList, r: Version)
    requires flow.Ok() && flow.Safe(E) && r != flow.start && In(E, r) == 0
    ensures flow.Doomed(r)
  {
    InPositive(E, r);
  }

  lemma MorePending(flow: Flow, E: EdgeList, pend: iset<Version>, more: iset<Version>)
    requires flow.Tight(E, pend) && pend <= more
    ensures flow.Tight(E, more)
  {
  }

  /** What is known about the two ends of a live edge. */
  lemma LiveEdge(flow: Flow, E: EdgeList, i: nat, l: Version, r: Version)
    requires flow.Ok() && flow.Safe(E) && i < |E| && E[i] == Some(Edge(l, Some(r)))
    ensures Edge(l, Some(r)) in flow.cand && Edge(l, None) !in flow.cand
    ensures l in flow.seen && l != r && r != flow.start
  {
    assert Some(Edge(l, Some(r))) in E;
  }

  lemma CountsAt(flow: Flow, E: EdgeList, indegree: map<Version, int>, outdegree: map<Version, int>, u: Version)
    requires flow.Counts(E, indegree, outdegree)
    ensures Get(indegree, u) == In(E, u) && (Edge(u, None) !in flow.cand ==> Get(outdegree, u) == Out(E, u))
  {
  }

  /** Clearing a slot of an edge into the doomed vertex `v`, and lowering both counters. */
  lemma CutInto(flow: Flow, E: EdgeList, i: nat, indegree: map<Version, int>, outdegree: map<Version, int>,
                pend: iset<Version>, v: Version, l: Version)
    requires flow.Ok() && flow.Sane(E, indegree, outdegree, pend) && v in pend && flow.Doomed(v)
    requires i < |E| && E[i] == Some(Edge(l, Some(v)))
    ensures l in outdegree && v in indegree && l != v
    ensures
      var out := outdegree[l := outdegree[l] - 1];
      var ind := indegree[v := indegree[v] - 1];
      var F := E[i := None];
      && LiveCount(F) == LiveCount(E) - 1
      && (out[l] != 0 ==> flow.Sane(F, ind, out, pend))
      && (out[l] == 0 ==> flow.Sane(F, ind, out, pend + iset{l}) && flow.Doomed(l))
  {
    hide Flow.Ok, Flow.Safe, Flow.Tight, Flow.Counts, In, Out, LiveCount;
    LiveEdge(flow, E, i, l, v);
    var F := E[i := None];
    Clear(E, i, l);
    CutSafe(flow, E, i);
    CutCounts(flow, E, i, indegree, outdegree, l, v);
    CountsAt(flow, F, indegree[v := indegree[v] - 1], outdegree[l := outdegree[l] - 1], l);
    if Out(F, l) == 0 {
      NoWayOn(flow, F, l);
      MorePending(flow, E, pend, pend + iset{l});
      CutTight(flow, E, i, l, v, pend + iset{l});
    } else {
      CutTight(flow, E, i, l, v, pend);
    }
  }

  /** Clearing a slot of an edge out of the doomed vertex `v`, and lowering both counters. */
  lemma CutFrom(flow: Flow, E: EdgeList, i: nat, indegree: map<Version, int>, outdegree: map<Version, int>,
                pend: iset<Version>, v: Version, r: Version)
    requires flow.Ok() && flow.Sane(E, indegree, outdegree, pend) && v in pend && flow.Doomed(v)
    requires i < |E| && E[i] == Some(Edge(v, Some(r)))
    ensures v in outdegree && r in indegree && r != v
    ensures
      var out := outdegree[v := outdegree[v] - 1];
      var ind := indegree[r := indegree[r] - 1];
      var F := E[i := None];
      && LiveCount(F) == LiveCount(E) - 1
      && (ind[r] != 0 ==> flow.Sane(F, ind, out, pend))
      && (ind[r] == 0 ==> flow.Sane(F, ind, out, pend + iset{r}) && flow.Doomed(r))
  {
    hide Flow.Ok, Flow.Safe, Flow.Tight, Flow.Counts, In, Out, LiveCount;
    LiveEdge(flow, E, i, v, r);
    var F := E[i := None];
    Clear(E, i, r);
    CutSafe(flow, E, i);
    CutCounts(flow, E, i, indegree, outdegree, v, r);
    CountsAt(flow, F, indegree[r := indegree[r] - 1], outdegree[v := outdegree[v] - 1], r);
    if In(F, r) == 0 {
      NoWayBack(flow, F, r);
      MorePending(flow, E, pend, pend + iset{r});
      CutTight(flow, E, i, v, r, pend + iset{r});
    } else {
      CutTight(flow, E, i, v, r, pend);
    }
  }

  /** Clearing the edge of the doomed vertex `v` that has no parents. */
  lemma CutEnd(flow: Flow, E: EdgeList, i: nat, indegree: map<Version, int>, outdegree: map<Version, int>,
               pend: iset<Version>, v: Version, out: map<Version, int>)
    requires flow.Ok() && flow.Sane(E, indegree, outdegree, pend) && v in pend && flow.Doomed(v)
    requires i < |E| && E[i] == Some(Edge(v, None))
    requires out.Keys == outdegree.Keys && forall u :: u in out && u != v ==> out[u] == outdegree[u]
    ensures LiveCount(E[i := None]) == LiveCount(E) - 1
    ensures flow.Sane(E[i := None], indegree, out, pend)
  {
    hide In, Out, LiveCount;
    assert Some(Edge(v, None)) in E;
    var F := E[i := None];
    CutSafe(flow, E, i);
    Clear(E, i, v);
    forall u ensures In(F, u) == In(E, u) && (u != v ==> Out(F, u) == Out(E, u)) {
      Clear(E, i, u);
    }
    assert forall f :: Some(f) in F ==> Some(f) in E;
  }

  /** Once no live edge touches `v`, it no longer needs to be pending. */
  lemma Settle(flow: Flow, E: EdgeList, indegree: map<Version, int>, outdegree: map<Version, int>,
               pend: iset<Version>, v: Version)
    requires flow.Sane(E, indegree, outdegree, pend + iset{v}) && Gone(E, v)
    ensures flow.Sane(E, indegree, outdegree, pend)
  {
    forall e | Some(e) in E ensures !Touches(e, v) {
    }
  }
}
