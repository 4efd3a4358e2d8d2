/**
 * What the live edges of one side mean in terms of the stream they came from: exactly the edges
 * on a path from the first vertex to an end of the stream that avoids every reported vertex.
 */
module Frontier {
  import opened Items
  import opened Dag
  import opened Edges

  ghost predicate Leads(it: Item, r: Option<Version>) {
    match r
    case None => it.pa == []
    case Some(p) => p in it.pa
  }

  ghost predicate IsEdge(s: seq<Item>, n: nat, e: Edge) {
    exists i :: 0 <= i < n <= |s| && s[i].v == e.l && Leads(s[i], e.r)
  }

  ghost predicate Seen(s: seq<Item>, n: nat, v: Version) {
    exists i :: 0 <= i < n <= |s| && s[i].v == v
  }

  /** A vertex where a walk ends: without parents, or absent from the stream. */
  ghost predicate End(s: seq<Item>, t: Version) {
    forall i :: 0 <= i < |s| && s[i].v == t ==> s[i].pa == []
  }

  /** Reachable from the first vertex of the stream without touching `R`. */
  ghost predicate Fwd(s: seq<Item>, R: set<Version>, u: Version) {
    |s| > 0 && Reach(s, s[0].v, R, u)
  }

  ghost predicate Bwd(s: seq<Item>, R: set<Version>, u: Version) {
    exists t :: End(s, t) && Reach(s, u, R, t)
  }

  ghost function FlowOf(s: seq<Item>, n: nat, R: set<Version>): Flow {
    Flow(iset e | IsEdge(s, n, e), iset u | Fwd(s, R, u), iset u | Bwd(s, R, u), iset u | Seen(s, n, u),
         if |s| > 0 then s[0].v else Version([]))
  }

  ghost predicate Exact(s: seq<Item>, n: nat, R: set<Version>, E: EdgeList) {
    var flow := FlowOf(s, n, R);
    forall e :: Some(e) in E <==> e in flow.cand && flow.Useful(e)
  }

  lemma EdgeItem(s: seq<Item>, n: nat, a: Version, b: Version)
    requires Topological(s) && n <= |s| && Seen(s, n, a) && Parent(s, a, b)
    ensures IsEdge(s, n, Edge(a, Some(b)))
  {
    var i :| 0 <= i < n && s[i].v == a;
    var j :| 0 <= j < |s| && s[j].v == a && b in s[j].pa;
    assert i == j;
  }

  lemma EdgeParent(s: seq<Item>, n: nat, e: Edge)
    requires Topological(s) && n <= |s| && IsEdge(s, n, e)
    ensures Seen(s, n, e.l)
    ensures e.r.Some? ==> Parent(s, e.l, e.r.value) && e.r.value != e.l && e.r.value != s[0].v
                          && !IsEdge(s, n, Edge(e.l, None))
    ensures e.r.None? ==> End(s, e.l)
  {
    var i :| 0 <= i < n && s[i].v == e.l && Leads(s[i], e.r);
  }

  lemma BwdStep(s: seq<Item>, R: set<Version>, a: Version, b: Version)
    requires Parent(s, a, b) && Bwd(s, R, b) && a !in R
    ensures Bwd(s, R, a)
  {
    var t :| End(s, t) && Reach(s, b, R, t);
    ReachRefl(s, a, R);
    ReachEnds(s, b, R, t);
    ReachStep(s, a, R, a, b);
    ReachTrans(s, a, R, b, t);
  }

  lemma FlowBwd(s: seq<Item>, n: nat, R: set<Version>, u: Version)
    requires Topological(s) && n <= |s| && Bwd(s, R, u) && Seen(s, n, u)
    ensures exists r :: IsEdge(s, n, Edge(u, r)) && FlowOf(s, n, R).EndOk(r)
  {
    var t :| End(s, t) && Reach(s, u, R, t);
    if u == t {
      var i :| 0 <= i < n && s[i].v == u;
      assert Leads(s[i], None);
      assert IsEdge(s, n, Edge(u, None)) && FlowOf(s, n, R).EndOk(None);
    } else {
      var b := ReachFirst(s, u, R, t);
      EdgeItem(s, n, u, b);
      assert FlowOf(s, n, R).EndOk(Some(b));
    }
  }

  lemma FlowFwd(s: seq<Item>, n: nat, R: set<Version>, u: Version)
    requires Topological(s) && n <= |s| && Fwd(s, R, u) && Seen(s, n, u) && u != s[0].v
    ensures exists a :: Fwd(s, R, a) && IsEdge(s, n, Edge(a, Some(u)))
  {
    var b := ReachLast(s, s[0].v, R, u);
    var i :| 0 <= i < n && s[i].v == u;
    var j :| 0 <= j < |s| && s[j].v == b && u in s[j].pa;
    assert j < i;
    assert Leads(s[j], Some(u));
    assert IsEdge(s, n, Edge(b, Some(u)));
  }

  lemma FlowOk(s: seq<Item>, n: nat, R: set<Version>)
    requires Topological(s) && n <= |s|
    ensures FlowOf(s, n, R).Ok()
  {
    var flow := FlowOf(s, n, R);
    forall u | u in flow.bwd && u in flow.seen ensures exists r :: Edge(u, r) in flow.cand && flow.EndOk(r) {
      FlowBwd(s, n, R, u);
      var r :| IsEdge(s, n, Edge(u, r)) && flow.EndOk(r);
      assert Edge(u, r) in flow.cand;
    }
    forall u | u in flow.fwd && u in flow.seen && u != flow.start
      ensures exists a :: a in flow.fwd && Edge(a, Some(u)) in flow.cand
    {
      FlowFwd(s, n, R, u);
      var a :| Fwd(s, R, a) && IsEdge(s, n, Edge(a, Some(u)));
      assert Edge(a, Some(u)) in flow.cand;
    }
    forall e | e in flow.cand
      ensures e.l in flow.seen
      ensures flow.Useful(e) ==> e.l in flow.bwd && (e.r.Some? ==> e.r.value in flow.fwd)
      ensures e.r.Some? ==> e.r.value != flow.start && e.r.value != e.l && Edge(e.l, None) !in flow.cand
    {
      EdgeParent(s, n, e);
      if flow.Useful(e) {
        FlowUseful(s, n, R, e);
      }
    }
  }

  lemma FlowUseful(s: seq<Item>, n: nat, R: set<Version>, e: Edge)
    requires Topological(s) && n <= |s| && IsEdge(s, n, e) && FlowOf(s, n, R).Useful(e)
    ensures Bwd(s, R, e.l) && e.l !in R
    ensures e.r.Some? ==> Fwd(s, R, e.r.value) && e.r.value !in R
  {
    EdgeParent(s, n, e);
    ReachEnds(s, s[0].v, R, e.l);
    if e.r.Some? {
      var t :| End(s, t) && Reach(s, e.r.value, R, t);
      ReachEnds(s, e.r.value, R, t);
      ReachStep(s, s[0].v, R, e.l, e.r.value);
      BwdStep(s, R, e.l, e.r.value);
    } else {
      ReachRefl(s, e.l, R);
    }
  }

  /** Every vertex has an end among its ancestors. */
  lemma {:induction false} ToEnd(s: seq<Item>, u: Version) returns (t: Version)
    requires Topological(s)
    ensures End(s, t) && Anc(s, u, t)
  {
    if i :| 0 <= i < |s| && s[i].v == u {
      t := ToEndFrom(s, i);
    } else {
      t := u;
      assert PathFrom(s, [u], u, u);
    }
  }

  lemma {:induction false} ToEndFrom(s: seq<Item>, i: nat) returns (t: Version)
    requires Topological(s) && i < |s|
    ensures End(s, t) && Anc(s, s[i].v, t)
    decreases |s| - i
  {
    var u := s[i].v;
    assert PathFrom(s, [u], u, u);
    if s[i].pa == [] {
      t := u;
    } else {
      var p := s[i].pa[0];
      assert Parent(s, u, p);
      assert PathFrom(s, [u, p], u, p);
      if j :| 0 <= j < |s| && s[j].v == p {
        t := ToEndFrom(s, j);
        AncTrans(s, u, p, t);
      } else {
        t := p;
      }
    }
  }

  /** If no reported vertex is `u` or an ancestor of `u`, the way from `u` to an end is free. */
  lemma BwdClear(s: seq<Item>, R: set<Version>, u: Version)
    requires Topological(s) && forall w :: w in R ==> !Anc(s, u, w)
    ensures Bwd(s, R, u)
  {
    var t := ToEnd(s, u);
    AncIsReach(s, u, t);
    ReachMono(s, u, {}, R, t);
  }

  lemma BwdOpen(s: seq<Item>, n: nat, R: set<Version>, u: Version)
    requires Topological(s) && n <= |s| && !Seen(s, n, u)
    requires forall w :: w in R ==> Seen(s, n, w)
    ensures Bwd(s, R, u)
  {
    forall w | w in R ensures !Anc(s, u, w) {
      OpenNoAnc(s, n, u, w);
    }
    BwdClear(s, R, u);
  }

  /** A vertex still to come has no processed ancestor. */
  lemma OpenNoAnc(s: seq<Item>, n: nat, u: Version, w: Version)
    requires Topological(s) && n <= |s| && !Seen(s, n, u) && Seen(s, n, w)
    ensures !Anc(s, u, w)
  {
    var j :| 0 <= j < n && s[j].v == w;
    if i :| 0 <= i < |s| && s[i].v == u && Anc(s, u, w) {
      AncOrder(s, i, j);
    } else if ps :| PathFrom(s, ps, u, w) && |ps| > 1 {
      assert Parent(s, ps[0], ps[1]);
    }
  }

  /** The exact frontier leaves nothing pending. */
  lemma ExactTight(s: seq<Item>, n: nat, R: set<Version>, E: EdgeList)
    requires Topological(s) && n <= |s| && Exact(s, n, R, E)
    ensures FlowOf(s, n, R).Tight(E, iset{})
  {
    var flow := FlowOf(s, n, R);
    FlowOk(s, n, R);
    forall e | Some(e) in E ensures e.l == flow.start || In(E, e.l) > 0 {
      if e.l != flow.start {
        var a :| a in flow.fwd && Edge(a, Some(e.l)) in flow.cand;
        assert flow.Useful(Edge(a, Some(e.l)));
        InPositive(E, e.l);
      }
    }
    forall e | Some(e) in E && e.r.Some? && e.r.value in flow.seen ensures Out(E, e.r.value) > 0 {
      var b := e.r.value;
      var r :| Edge(b, r) in flow.cand && flow.EndOk(r);
      assert flow.Useful(Edge(b, r));
      OutPositive(E, b);
    }
  }

  lemma SmallerFlow(s: seq<Item>, R: set<Version>, S: set<Version>, u: Version)
    requires R <= S
    ensures Fwd(s, S, u) ==> Fwd(s, R, u)
    ensures Bwd(s, S, u) ==> Bwd(s, R, u)
  {
    if Fwd(s, S, u) {
      ReachLess(s, s[0].v, R, S, u);
    }
    if Bwd(s, S, u) {
      var t :| End(s, t) && Reach(s, u, S, t);
      ReachLess(s, u, R, S, t);
    }
  }

  lemma ReachLess(s: seq<Item>, a: Version, R: set<Version>, S: set<Version>, u: Version)
    requires R <= S && Reach(s, a, S, u)
    ensures Reach(s, a, R, u)
  {
    var ps :| PathFrom(s, ps, a, u) && Avoids(ps, S);
    assert Avoids(ps, R);
  }

  /** Before removing the newly reported `v`: only `v` is pending. `m` counts `v` as processed. */
  lemma BeforeRemoval(s: seq<Item>, n: nat, m: nat, R: set<Version>, v: Version, E: EdgeList,
                      indegree: map<Version, int>, outdegree: map<Version, int>)
    requires Topological(s) && n <= m <= |s| && m <= n + 1 && (m == n + 1 ==> s[n].v == v)
    requires Exact(s, n, R, E) && FlowOf(s, n, R).Counts(E, indegree, outdegree)
    ensures FlowOf(s, m, R + {v}).Sane(E, indegree, outdegree, iset{} + iset{v})
    ensures FlowOf(s, m, R + {v}).Doomed(v)
  {
    var before, flow := FlowOf(s, n, R), FlowOf(s, m, R + {v});
    ExactTight(s, n, R, E);
    forall e | e in flow.cand && flow.Useful(e) ensures Some(e) in E && !Touches(e, v) {
      FlowUseful(s, m, R + {v}, e);
      SmallerFlow(s, R, R + {v}, e.l);
      if e.r.Some? {
        SmallerFlow(s, R, R + {v}, e.r.value);
      }
      assert e in before.cand;
    }
    forall e | e in before.cand ensures e in flow.cand {
      var i :| 0 <= i < n && s[i].v == e.l && Leads(s[i], e.r);
      assert IsEdge(s, m, e);
    }
    forall u | u in flow.seen && u != v ensures u in before.seen {
    }
  }

  /** A live edge is reached from the start through live edges. */
  lemma {:induction false} LiveFwd(s: seq<Item>, n: nat, R: set<Version>, E: EdgeList, i: nat, e: Edge)
    requires Topological(s) && i < n <= |s| && FlowOf(s, n, R).Safe(E) && FlowOf(s, n, R).Tight(E, iset{})
    requires forall u :: u in R ==> Gone(E, u)
    requires Some(e) in E && e.l == s[i].v
    ensures Fwd(s, R, e.l)
    decreases i
  {
    assert Touches(e, e.l) && e.l !in R;
    if e.l == s[0].v {
      ReachRefl(s, e.l, R);
    } else {
      InPositive(E, e.l);
      var a :| Some(Edge(a, Some(e.l))) in E;
      assert IsEdge(s, n, Edge(a, Some(e.l)));
      var j :| 0 <= j < n && s[j].v == a && Leads(s[j], Some(e.l));
      LiveFwd(s, n, R, E, j, Edge(a, Some(e.l)));
      EdgeParent(s, n, Edge(a, Some(e.l)));
      ReachStep(s, s[0].v, R, a, e.l);
    }
  }

  /** A live edge leads on to an end through live edges. */
  lemma {:induction false} LiveBwd(s: seq<Item>, n: nat, R: set<Version>, E: EdgeList, i: nat, e: Edge)
    requires Topological(s) && i < n <= |s| && FlowOf(s, n, R).Safe(E) && FlowOf(s, n, R).Tight(E, iset{})
    requires forall u :: u in R ==> Gone(E, u) && Seen(s, n, u)
    requires Some(e) in E && e.l == s[i].v && e.r.Some?
    ensures Bwd(s, R, e.r.value)
    decreases n - i
  {
    var b := e.r.value;
    assert Touches(e, b) && b !in R;
    assert IsEdge(s, n, e);
    var i' :| 0 <= i' < n && s[i'].v == e.l && Leads(s[i'], e.r);
    assert i' == i;
    if !Seen(s, n, b) {
      BwdOpen(s, n, R, b);
    } else {
      OutPositive(E, b);
      var r :| Some(Edge(b, r)) in E;
      EdgeParent(s, n, Edge(b, r));
      if r.None? {
        ReachRefl(s, b, R);
      } else {
        var j :| 0 <= j < n && s[j].v == b;
        assert i < j;
        LiveBwd(s, n, R, E, j, Edge(b, r));
        BwdStep(s, R, b, r.value);
      }
    }
  }

  /** With nothing pending and no reported vertex touched, the frontier is exact. */
  lemma AfterRemoval(s: seq<Item>, n: nat, R: set<Version>, E: EdgeList)
    requires Topological(s) && n <= |s| && FlowOf(s, n, R).Safe(E) && FlowOf(s, n, R).Tight(E, iset{})
    requires forall u :: u in R ==> Gone(E, u) && Seen(s, n, u)
    ensures Exact(s, n, R, E)
  {
    var flow := FlowOf(s, n, R);
    forall e | Some(e) in E ensures flow.Useful(e) {
      var i :| 0 <= i < n && s[i].v == e.l && Leads(s[i], e.r);
      LiveFwd(s, n, R, E, i, e);
      if e.r.Some? {
        LiveBwd(s, n, R, E, i, e);
      }
    }
  }

  /** A vertex is part of the graph iff it is the first one or on the right of a live edge. */
  lemma Included(s: seq<Item>, n: nat, R: set<Version>, E: EdgeList)
    requires Topological(s) && n < |s| && Exact(s, n, R, E)
    requires forall u :: u in R ==> Seen(s, n, u)
    ensures Fwd(s, R, s[n].v) <==> n == 0 || exists a :: Some(Edge(a, Some(s[n].v))) in E
  {
    var v := s[n].v;
    var flow := FlowOf(s, n, R);
    assert !Seen(s, n, v);
    assert v !in R;
    if n == 0 {
      ReachRefl(s, v, R);
    } else if Fwd(s, R, v) {
      var b := ReachLast(s, s[0].v, R, v);
      var j :| 0 <= j < |s| && s[j].v == b && v in s[j].pa;
      assert j < n && Leads(s[j], Some(v));
      BwdOpen(s, n, R, v);
      assert IsEdge(s, n, Edge(b, Some(v))) && flow.Useful(Edge(b, Some(v)));
    } else if a :| Some(Edge(a, Some(v))) in E {
      FlowUseful(s, n, R, Edge(a, Some(v)));
    }
  }

  /** A processed vertex is on the left of a live edge iff it is still on a free path. */
  lemma OnLeft(s: seq<Item>, n: nat, R: set<Version>, E: EdgeList, v: Version)
    requires Topological(s) && n <= |s| && Exact(s, n, R, E)
    ensures (exists r :: Some(Edge(v, r)) in E) <==> Seen(s, n, v) && Fwd(s, R, v) && Bwd(s, R, v)
  {
    FlowOk(s, n, R);
    var flow := FlowOf(s, n, R);
    if r :| Some(Edge(v, r)) in E {
      assert Edge(v, r) in flow.cand && flow.Useful(Edge(v, r));
    }
    if Seen(s, n, v) && Fwd(s, R, v) && Bwd(s, R, v) {
      FlowBwd(s, n, R, v);
      var r :| IsEdge(s, n, Edge(v, r)) && flow.EndOk(r);
      assert flow.Useful(Edge(v, r));
    }
  }

  /** Skipping a vertex that is not part of the graph. */
  lemma SkipExact(s: seq<Item>, n: nat, R: set<Version>, E: EdgeList)
    requires Topological(s) && n < |s| && Exact(s, n, R, E) && !Fwd(s, R, s[n].v)
    ensures Exact(s, n + 1, R, E)
  {
    GrowCand(s, n);
  }

  lemma GrowCand(s: seq<Item>, n: nat)
    requires n < |s|
    ensures forall e :: IsEdge(s, n + 1, e) <==> IsEdge(s, n, e) || (e.l == s[n].v && Leads(s[n], e.r))
  {
    forall e ensures IsEdge(s, n + 1, e) <==> IsEdge(s, n, e) || (e.l == s[n].v && Leads(s[n], e.r)) {
      if IsEdge(s, n, e) {
        var i :| 0 <= i < n && s[i].v == e.l && Leads(s[i], e.r);
        assert IsEdge(s, n + 1, e);
      }
    }
  }

  /** Adding the out-edges of a vertex that is part of the graph. */
  lemma PushExact(s: seq<Item>, n: nat, R: set<Version>, E: EdgeList, F: EdgeList)
    requires Topological(s) && n < |s| && Exact(s, n, R, E) && Fwd(s, R, s[n].v)
    requires forall u :: u in R ==> Seen(s, n, u)
    requires forall e :: Some(e) in F <==> Some(e) in E || (e.l == s[n].v && Leads(s[n], e.r))
    ensures Exact(s, n + 1, R, F)
  {
    GrowCand(s, n);
    var flow := FlowOf(s, n + 1, R);
    forall e: Edge | e.l == s[n].v && Leads(s[n], e.r) ensures flow.Useful(e) {
      if e.r.Some? {
        assert !Seen(s, n, e.r.value);
        BwdOpen(s, n, R, e.r.value);
      }
    }
  }
}
