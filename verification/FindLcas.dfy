/**
 * The streaming common-ancestor search: two sides consumed in any interleaving, each with its own
 * edge list, degree counters and item cache.
 */
module FindLcas {
  import opened Items
  import opened Dag
  import opened Edges
  import opened Frontier
  import opened Meet

  ghost predicate NoGaps(E: EdgeList) {
    forall i :: 0 <= i < |E| ==> E[i].Some?
  }

  ghost predicate LeftOf(E: EdgeList, v: Version) {
    exists r :: Some(Edge(v, r)) in E
  }

  /** Edges into a vertex come before those out of it. */
  ghost predicate IntoFirst(E: EdgeList) {
    forall i, j :: 0 <= i < j < |E| && E[i].Some? && E[j].Some? ==> E[j].value.r != Some(E[i].value.l)
  }

  /** The live edges in order. */
  ghost function Compact(E: EdgeList): EdgeList {
    if E == [] then [] else Compact(E[..|E| - 1]) + if E[|E| - 1].Some? then [E[|E| - 1]] else []
  }

  lemma {:induction false} CompactSplice(E: EdgeList, i: nat)
    requires i < |E| && E[i].None?
    ensures Compact(E[..i] + E[i + 1..]) == Compact(E)
    decreases |E|
  {
    var n := |E| - 1;
    var F := E[..i] + E[i + 1..];
    if i == n {
      assert F == E[..n];
    } else {
      CompactSplice(E[..n], i);
      assert F[..|F| - 1] == E[..n][..i] + E[..n][i + 1..];
    }
  }

  lemma {:induction false} CompactNoGaps(E: EdgeList)
    requires NoGaps(E)
    ensures Compact(E) == E
  {
    if E != [] {
      CompactNoGaps(E[..|E| - 1]);
      assert E == E[..|E| - 1] + [E[|E| - 1]];
    }
  }

  lemma {:induction false} CompactKeeps(E: EdgeList, u: Version)
    ensures In(Compact(E), u) == In(E, u) && Out(Compact(E), u) == Out(E, u)
    ensures NoGaps(Compact(E)) && |Compact(E)| == LiveCount(E) <= |E|
    ensures forall e :: Some(e) in Compact(E) <==> Some(e) in E
  {
    if E != [] {
      var x := E[|E| - 1];
      var C := Compact(E[..|E| - 1]);
      CompactKeeps(E[..|E| - 1], u);
      assert E == E[..|E| - 1] + [x];
      if x.Some? {
        Append(C, x.value, u);
        Append(E[..|E| - 1], x.value, u);
        assert [x] == [Some(x.value)];
      } else {
        assert Compact(E) == C;
      }
    }
  }

  lemma Append(E: EdgeList, e: Edge, u: Version)
    ensures In(E + [Some(e)], u) == In(E, u) + if e.r == Some(u) then 1 else 0
    ensures Out(E + [Some(e)], u) == Out(E, u) + if e.l == u then 1 else 0
  {
    assert (E + [Some(e)])[..|E|] == E;
  }

  /** The edge list and its counters stand for the exact frontier. */
  ghost predicate Consistent(s: seq<Item>, n: nat, R: set<Version>, E: EdgeList,
                             indegree: map<Version, int>, outdegree: map<Version, int>) {
    NoGaps(E) && Exact(s, n, R, E) && FlowOf(s, n, R).Counts(E, indegree, outdegree)
  }

  ghost predicate Cached(s: seq<Item>, n: nat, E: EdgeList, cache: map<Version, Item>)
    requires n <= |s|
  {
    forall i :: 0 <= i < n && LeftOf(E, s[i].v) ==> s[i].v in cache && cache[s[i].v] == s[i]
  }

  /** The reported items of one side are items of its own stream. */
  ghost predicate Recorded(s: seq<Item>, R: set<Version>, items: map<Version, Item>) {
    items.Keys == R && forall v :: v in items ==> items[v].v == v && items[v] in s
  }

  /** Slots are only ever cleared, and the cache keeps the items of vertices that still have out-edges. */
  ghost predicate Progress(E0: EdgeList, c0: map<Version, Item>, E: EdgeList, c: map<Version, Item>, x: iset<Version>) {
    && Shrunk(E0, E)
    && forall a :: a !in x && a in c0 && LeftOf(E, a) ==> a in c && c[a] == c0[a]
  }

  lemma ProgressRefl(E: EdgeList, c: map<Version, Item>, v: Version)
    ensures Progress(E, c, E, c, iset{v})
  {
  }

  lemma ProgressClear(E: EdgeList, c: map<Version, Item>, i: nat, v: Version)
    requires i < |E|
    ensures Progress(E, c, E[i := None], c - {v}, iset{v})
  {
  }

  lemma ProgressTrans(E0: EdgeList, c0: map<Version, Item>, E1: EdgeList, c1: map<Version, Item>,
                      E: EdgeList, c: map<Version, Item>, x: iset<Version>)
    requires Progress(E0, c0, E1, c1, x)
    requires Progress(E1, c1, E, c, x) || Progress(E1, c1, E, c, iset{})
    ensures Progress(E0, c0, E, c, x)
  {
    forall a | a !in x && a in c0 && LeftOf(E, a) ensures a in c && c[a] == c0[a] {
      ShrunkLeft(E1, E, a);
    }
  }

  lemma ProgressShrinks(E0: EdgeList, c0: map<Version, Item>, E: EdgeList, c: map<Version, Item>, x: iset<Version>, i: nat)
    requires Progress(E0, c0, E, c, x) && i < |E0|
    ensures Shrunk(E0, E) && |E| == |E0| && (E0[i] == None ==> E[i] == None)
  {
  }

  /** Once no live edge touches `v`, nothing is asked of its cached item. */
  lemma ProgressGone(E0: EdgeList, c0: map<Version, Item>, E: EdgeList, c: map<Version, Item>, v: Version)
    requires Progress(E0, c0, E, c, iset{v}) && Gone(E, v)
    ensures Progress(E0, c0, E, c, iset{})
  {
    forall a | a in c0 && LeftOf(E, a) ensures a != v {
      var r :| Some(Edge(a, r)) in E;
    }
  }

  lemma ShrunkLeft(E0: EdgeList, E: EdgeList, a: Version)
    requires Shrunk(E0, E) && LeftOf(E, a)
    ensures LeftOf(E0, a)
  {
    var r :| Some(Edge(a, r)) in E;
    var j :| 0 <= j < |E| && E[j] == Some(Edge(a, r));
    assert E0[j] == Some(Edge(a, r));
  }

  /** No live edge before slot `i` touches `v`. */
  ghost predicate Clean(E: EdgeList, i: nat, v: Version) {
    forall j :: 0 <= j < i && j < |E| && E[j].Some? ==> !Touches(E[j].value, v)
  }

  lemma CleanStart(E: EdgeList, v: Version)
    ensures Clean(E, 0, v)
  {
  }

  lemma CleanStep(E: EdgeList, i: nat, v: Version)
    requires Clean(E, i, v) && i < |E| && (E[i].Some? ==> !Touches(E[i].value, v))
    ensures Clean(E, i + 1, v)
  {
  }

  lemma AllClean(E: EdgeList, v: Version)
    requires Clean(E, |E|, v)
    ensures Gone(E, v)
  {
  }

  lemma CleanKept(E0: EdgeList, E: EdgeList, i: nat, v: Version)
    requires Clean(E0, i, v) && Shrunk(E0, E)
    ensures Clean(E, i, v)
  {
  }

  /** The search state of one stream. */
  class Side {
    var E: EdgeList
    var indegree: map<Version, int>
    var outdegree: map<Version, int>
    var cache: map<Version, Item>
    var lca: map<Version, Item>

    constructor ()
      ensures E == [] && indegree == map[] && outdegree == map[] && cache == map[] && lca == map[]
    {
      E, indegree, outdegree, cache, lca := [], map[], map[], map[], map[];
    }

    /** After `n` items of `s`, with the versions in `R` reported. */
    ghost predicate Inv(s: seq<Item>, n: nat, R: set<Version>)
      reads this
    {
      n <= |s| && Consistent(s, n, R, E, indegree, outdegree) && Cached(s, n, E, cache) && Recorded(s, R, lca)
    }

    /**
     * Whether `v` occurs left and right. Scanning stops at the first left occurrence, which loses no
     * right one in a list that is topologically sorted.
     */
    static method Lr(E: EdgeList, v: Version) returns (l: bool, r: bool)
      requires NoGaps(E)
      ensures l <==> LeftOf(E, v)
      ensures r ==> exists a :: Some(Edge(a, Some(v))) in E
      ensures !l || IntoFirst(E) ==> (r <==> exists a :: Some(Edge(a, Some(v))) in E)
    {
      l, r := false, false;
      var k := 0;
      while k < |E| && !l
        invariant 0 <= k <= |E|
        invariant l ==> LeftOf(E, v)
        invariant !l ==> forall j :: 0 <= j < k ==> E[j].value.l != v
        invariant l ==> k > 0 && E[k - 1].value.l == v
        invariant r ==> exists a :: Some(Edge(a, Some(v))) in E
        invariant !r ==> forall j :: 0 <= j < k ==> E[j].value.r != Some(v)
      {
        var edge := E[k].value;
        assert edge == Edge(edge.l, edge.r) && Some(edge) in E;
        if edge.l == v { l := true; }
        if edge.r == Some(v) { r := true; }
        k := k + 1;
      }
    }

    /** Remove the cleared slots, splicing them out one by one. */
    method RemoveNull() returns (removed: nat)
      modifies this`E
      ensures E == Compact(old(E)) && removed == |old(E)| - |E|
    {
      removed := 0;
      var i := 0;
      while i < |E|
        invariant 0 <= i <= |E| && removed == |old(E)| - |E|
        invariant Compact(E) == Compact(old(E))
        invariant forall j :: 0 <= j < i ==> E[j].Some?
        decreases |E| - i
      {
        if E[i].None? {
          CompactSplice(E, i);
          E := E[..i] + E[i + 1..];
          removed := removed + 1;
        } else {
          i := i + 1;
        }
      }
      CompactNoGaps(E);
    }

    /**
     * Remove a vertex, then every vertex whose last outgoing or last incoming edge went with it.
     * `flow` is the graph the edges stand for and `pend` the vertices whose removal is under way.
     * Termination: a recursive call is made only after a live edge has been cleared.
     */
    method RemoveVertice(v: Version, ghost flow: Flow, ghost pend: iset<Version>) returns (removed: nat)
      requires flow.Ok() && flow.Sane(E, indegree, outdegree, pend + iset{v}) && flow.Doomed(v)
      modifies this`E, this`indegree, this`outdegree, this`cache
      ensures flow.Sane(E, indegree, outdegree, pend) && Gone(E, v)
      ensures Progress(old(E), old(cache), E, cache, iset{})
      ensures removed == LiveCount(old(E)) - LiveCount(E)
      decreases LiveCount(E), 1
    {
      hide Flow.Ok, Flow.Sane, Flow.Doomed, In, Out, Get, LiveCount, Progress, Clean, Gone;
      removed := 0;
      var i := 0;
      ProgressRefl(E, cache, v);
      CleanStart(E, v);
      while i < |E|
        invariant 0 <= i <= |E|
        invariant flow.Sane(E, indegree, outdegree, pend + iset{v})
        invariant Progress(old(E), old(cache), E, cache, iset{v}) && Clean(E, i, v)
        invariant removed == LiveCount(old(E)) - LiveCount(E)
      {
        if E[i].Some? {
          var l, r := E[i].value.l, E[i].value.r;
          assert Some(E[i].value) in E;
          ghost var E1, c1 := E, cache;
          if r == Some(v) {
            var k := CutIncoming(i, l, v, flow, pend);
            removed := removed + k;
          }
          if l == v {
            var k := CutOutgoing(i, v, r, flow, pend);
            removed := removed + k;
          }
          if r == Some(v) || l == v {
            ProgressTrans(old(E), old(cache), E1, c1, E, cache, iset{v});
            ProgressShrinks(E1, c1, E, cache, iset{v}, i);
            CleanKept(E1, E, i, v);
          }
        }
        CleanStep(E, i, v);
        i := i + 1;
      }
      AllClean(E, v);
      ProgressGone(old(E), old(cache), E, cache, v);
      Settle(flow, E, indegree, outdegree, pend, v);
    }

    /** The edge in slot `i` leads from `l` to the vertex `v` under removal. */
    method CutIncoming(i: nat, l: Version, v: Version, ghost flow: Flow, ghost pend: iset<Version>) returns (removed: nat)
      requires flow.Ok() && flow.Sane(E, indegree, outdegree, pend + iset{v}) && flow.Doomed(v)
      requires i < |E| && E[i] == Some(Edge(l, Some(v)))
      modifies this`E, this`indegree, this`outdegree, this`cache
      ensures l != v && flow.Sane(E, indegree, outdegree, pend + iset{v})
      ensures Progress(old(E), old(cache), E, cache, iset{v}) && E[i] == None
      ensures removed == LiveCount(old(E)) - LiveCount(E)
      decreases LiveCount(E), 0
    {
      hide Flow.Ok, Flow.Sane, Flow.Doomed, In, Out, Get, LiveCount, Progress;
      CutInto(flow, E, i, indegree, outdegree, pend + iset{v}, v, l);
      ProgressClear(E, cache, i, v);
      E, cache, removed := E[i := None], cache - {v}, 1;
      outdegree := outdegree[l := outdegree[l] - 1];
      indegree := indegree[v := indegree[v] - 1];
      if outdegree[l] == 0 {
        ghost var E1, c1 := E, cache;
        var k := RemoveVertice(l, flow, pend + iset{v});
        removed := removed + k;
        ProgressShrinks(E1, c1, E, cache, iset{}, i);
        ProgressTrans(old(E), old(cache), E1, c1, E, cache, iset{v});
      }
    }

    /** The edge in slot `i` leads from the vertex `v` under removal to `r`, if to any. */
    method CutOutgoing(i: nat, v: Version, r: Option<Version>, ghost flow: Flow, ghost pend: iset<Version>) returns (removed: nat)
      requires flow.Ok() && flow.Sane(E, indegree, outdegree, pend + iset{v}) && flow.Doomed(v)
      requires i < |E| && E[i] == Some(Edge(v, r))
      modifies this`E, this`indegree, this`outdegree, this`cache
      ensures flow.Sane(E, indegree, outdegree, pend + iset{v})
      ensures Progress(old(E), old(cache), E, cache, iset{v}) && E[i] == None
      ensures removed == LiveCount(old(E)) - LiveCount(E)
      decreases LiveCount(E), 0
    {
      hide Flow.Ok, Flow.Sane, Flow.Doomed, In, Out, Get, LiveCount, Progress;
      ProgressClear(E, cache, i, v);
      if r.None? {
        // the counters of a vertex without parents play no part in any decision
        var out := if v in outdegree then outdegree[v := outdegree[v] - 1] else outdegree;
        CutEnd(flow, E, i, indegree, outdegree, pend + iset{v}, v, out);
        E, cache, removed, outdegree := E[i := None], cache - {v}, 1, out;
        return;
      }
      CutFrom(flow, E, i, indegree, outdegree, pend + iset{v}, v, r.value);
      E, cache, removed := E[i := None], cache - {v}, 1;
      outdegree := outdegree[v := outdegree[v] - 1];
      indegree := indegree[r.value := indegree[r.value] - 1];
      if indegree[r.value] == 0 {
        ghost var E1, c1 := E, cache;
        var k := RemoveVertice(r.value, flow, pend + iset{v});
        removed := removed + k;
        ProgressShrinks(E1, c1, E, cache, iset{}, i);
        ProgressTrans(old(E), old(cache), E1, c1, E, cache, iset{v});
      }
    }

    /** Remove the reported vertex `v` and compact the edge list; `m` counts `v` as processed. */
    method Detach(v: Version, ghost s: seq<Item>, ghost n: nat, ghost m: nat, ghost R: set<Version>)
      requires Topological(s) && n <= m <= |s| && m <= n + 1 && (m == n + 1 ==> s[n].v == v)
      requires Consistent(s, n, R, E, indegree, outdegree)
      requires Cached(s, n, E, cache)
      requires forall u :: u in R + {v} ==> Seen(s, m, u)
      modifies this`E, this`indegree, this`outdegree, this`cache
      ensures Consistent(s, m, R + {v}, E, indegree, outdegree)
      ensures Cached(s, m, E, cache)
    {
      BeforeRemoval(s, n, m, R, v, E, indegree, outdegree);
      FlowOk(s, m, R + {v});
      var k := RemoveVertice(v, FlowOf(s, m, R + {v}), iset{});
      AfterDetach(s, n, m, R, v, old(E), E, indegree, outdegree, old(cache), cache);
      k := RemoveNull();
    }

    /** Add one edge and raise both counters. */
    method AddEdge(v: Version, p: Version)
      modifies this`E, this`indegree, this`outdegree
      ensures E == old(E) + [Some(Edge(v, Some(p)))]
      ensures outdegree == old(outdegree[v := Get(outdegree, v) + 1])
      ensures indegree == old(indegree[p := Get(indegree, p) + 1])
    {
      E := E + [Some(Edge(v, Some(p)))];
      outdegree := outdegree[v := if v in outdegree then outdegree[v] else 0];
      outdegree := outdegree[v := outdegree[v] + 1];
      indegree := indegree[p := if p in indegree then indegree[p] else 0];
      indegree := indegree[p := indegree[p] + 1];
      assert outdegree == old(outdegree)[v := Get(old(outdegree), v) + 1];
      assert indegree == old(indegree)[p := Get(old(indegree), p) + 1];
    }

    /** Add the edges of the item at position `n` to its parents, or to nothing if it has none. */
    method AddEdges(o: Item, ghost s: seq<Item>, ghost n: nat, ghost R: set<Version>)
      requires Topological(s) && n < |s| && s[n] == o && Fwd(s, R, o.v)
      requires forall u :: u in R ==> Seen(s, n, u)
      requires Consistent(s, n, R, E, indegree, outdegree)
      modifies this`E, this`indegree, this`outdegree
      ensures Consistent(s, n + 1, R, E, indegree, outdegree)
      ensures forall a :: a != o.v && LeftOf(E, a) ==> LeftOf(old(E), a)
    {
      hide Consistent, Grown, CountedUp, Topological, Fwd, Seen, LeftOf;
      var v := o.v;
      if o.pa == [] {
        AddedEnd(s, n, R, E, indegree, outdegree);
        E := E + [Some(Edge(v, None))];
        outdegree := outdegree[v := if v in outdegree then outdegree[v] else 0];
        indegree := indegree[v := if v in indegree then indegree[v] else 0];
      } else {
        var k := 0;
        GrowNone(E, indegree, outdegree, v, o.pa);
        while k < |o.pa|
          invariant 0 <= k <= |o.pa|
          invariant Grown(old(E), E, v, o.pa[..k])
          invariant CountedUp(old(E), old(indegree), old(outdegree), E, indegree, outdegree)
        {
          var p := o.pa[k];
          GrowOne(old(E), E, v, o.pa, k);
          CountOne(old(E), old(indegree), old(outdegree), E, indegree, outdegree, v, p);
          AddEdge(v, p);
          k := k + 1;
        }
        assert o.pa[..k] == o.pa;
        AddedParents(s, n, R, old(E), old(indegree), old(outdegree), E, indegree, outdegree);
      }
    }
  }

  /** `E` is `E0` with edges from `v` to the given parents. */
  ghost predicate Grown(E0: EdgeList, E: EdgeList, v: Version, pa: seq<Version>) {
    && (forall e :: Some(e) in E <==> Some(e) in E0 || (e.l == v && e.r.Some? && e.r.value in pa))
    && (NoGaps(E0) ==> NoGaps(E))
  }

  /** The counters followed every change of the edge list. */
  ghost predicate CountedUp(E0: EdgeList, in0: map<Version, int>, out0: map<Version, int>,
                            E: EdgeList, ind: map<Version, int>, out: map<Version, int>) {
    && (forall u :: Get(ind, u) - In(E, u) == Get(in0, u) - In(E0, u))
    && (forall u :: Get(out, u) - Out(E, u) == Get(out0, u) - Out(E0, u))
  }

  lemma GrowNone(E: EdgeList, ind: map<Version, int>, out: map<Version, int>, v: Version, pa: seq<Version>)
    ensures Grown(E, E, v, pa[..0]) && CountedUp(E, ind, out, E, ind, out)
  {
  }

  lemma GrowOne(E0: EdgeList, E: EdgeList, v: Version, pa: seq<Version>, k: nat)
    requires k < |pa| && Grown(E0, E, v, pa[..k])
    ensures Grown(E0, E + [Some(Edge(v, Some(pa[k])))], v, pa[..k + 1])
  {
    assert pa[..k + 1] == pa[..k] + [pa[k]];
  }

  lemma CountOne(E0: EdgeList, in0: map<Version, int>, out0: map<Version, int>,
                 E: EdgeList, ind: map<Version, int>, out: map<Version, int>, v: Version, p: Version)
    requires CountedUp(E0, in0, out0, E, ind, out)
    ensures CountedUp(E0, in0, out0, E + [Some(Edge(v, Some(p)))], ind[p := Get(ind, p) + 1], out[v := Get(out, v) + 1])
  {
    var e := Edge(v, Some(p));
    var F := E + [Some(e)];
    forall u ensures In(F, u) == In(E, u) + (if u == p then 1 else 0) && Out(F, u) == Out(E, u) + if u == v then 1 else 0 {
      Append(E, e, u);
    }
  }

  lemma AddedParents(s: seq<Item>, n: nat, R: set<Version>, E0: EdgeList, in0: map<Version, int>, out0: map<Version, int>,
                     E: EdgeList, ind: map<Version, int>, out: map<Version, int>)
    requires Topological(s) && n < |s| && Fwd(s, R, s[n].v) && s[n].pa != []
    requires forall u :: u in R ==> Seen(s, n, u)
    requires Consistent(s, n, R, E0, in0, out0)
    requires Grown(E0, E, s[n].v, s[n].pa) && CountedUp(E0, in0, out0, E, ind, out)
    ensures Consistent(s, n + 1, R, E, ind, out)
    ensures forall a :: a != s[n].v && LeftOf(E, a) ==> LeftOf(E0, a)
  {
    forall r: Option<Version> ensures Leads(s[n], r) <==> r.Some? && r.value in s[n].pa {
    }
    PushExact(s, n, R, E0, E);
    GrowCand(s, n);
    NotLeftYet(s, n, R, E0, s[n].v);
  }

  lemma AddedEnd(s: seq<Item>, n: nat, R: set<Version>, E0: EdgeList, in0: map<Version, int>, out0: map<Version, int>)
    requires Topological(s) && n < |s| && Fwd(s, R, s[n].v) && s[n].pa == []
    requires forall u :: u in R ==> Seen(s, n, u)
    requires Consistent(s, n, R, E0, in0, out0)
    ensures
      var v := s[n].v;
      var E := E0 + [Some(Edge(v, None))];
      && Consistent(s, n + 1, R, E, in0[v := Get(in0, v)], out0[v := Get(out0, v)])
      && forall a :: a != v && LeftOf(E, a) ==> LeftOf(E0, a)
  {
    var v := s[n].v;
    var e := Edge(v, None);
    var E := E0 + [Some(e)];
    forall f ensures Some(f) in E <==> Some(f) in E0 || (f.l == v && Leads(s[n], f.r)) {
    }
    PushExact(s, n, R, E0, E);
    GrowCand(s, n);
    assert Leads(s[n], None);
    forall u ensures In(E, u) == In(E0, u) && (u != v ==> Out(E, u) == Out(E0, u)) {
      Append(E0, e, u);
    }
  }

  /** A vertex still to come has no out-edge yet, so its counter is zero. */
  lemma NotLeftYet(s: seq<Item>, n: nat, R: set<Version>, E: EdgeList, v: Version)
    requires Topological(s) && n < |s| && s[n].v == v && Exact(s, n, R, E)
    ensures !LeftOf(E, v) && Out(E, v) == 0 && forall r :: Edge(v, r) !in FlowOf(s, n, R).cand
  {
    OutPositive(E, v);
  }

  lemma AfterDetach(s: seq<Item>, n: nat, m: nat, R: set<Version>, v: Version, E0: EdgeList, E: EdgeList,
                    indegree: map<Version, int>, outdegree: map<Version, int>,
                    c0: map<Version, Item>, c: map<Version, Item>)
    requires Topological(s) && n <= m <= |s| && m <= n + 1 && (m == n + 1 ==> s[n].v == v)
    requires Exact(s, n, R, E0) && Cached(s, n, E0, c0)
    requires forall u :: u in R + {v} ==> Seen(s, m, u)
    requires FlowOf(s, m, R + {v}).Sane(E, indegree, outdegree, iset{}) && Gone(E, v)
    requires Progress(E0, c0, E, c, iset{})
    ensures Consistent(s, m, R + {v}, Compact(E), indegree, outdegree)
    ensures Cached(s, m, Compact(E), c)
  {
    hide Topological, In, Out, Compact, LeftOf, Seen, Cached, Progress;
    DetachCached(s, n, m, v, E0, E, c0, c);
    OnlyShrinks(E0, E, c0, c);
    forall e, u | Some(e) in E && u in R ensures !Touches(e, u) {
      assert Some(e) in E0;
      FlowUseful(s, n, R, e);
    }
    AfterRemoval(s, m, R + {v}, E);
    CompactKeeps(E, v);
    forall u ensures In(Compact(E), u) == In(E, u) && Out(Compact(E), u) == Out(E, u) {
      CompactKeeps(E, u);
    }
  }

  lemma OnlyShrinks(E0: EdgeList, E: EdgeList, c0: map<Version, Item>, c: map<Version, Item>)
    requires Progress(E0, c0, E, c, iset{})
    ensures Shrunk(E0, E)
  {
  }

  lemma DetachCached(s: seq<Item>, n: nat, m: nat, v: Version, E0: EdgeList, E: EdgeList,
                     c0: map<Version, Item>, c: map<Version, Item>)
    requires n <= m <= |s| && m <= n + 1 && (m == n + 1 ==> s[n].v == v)
    requires Cached(s, n, E0, c0) && Gone(E, v) && Progress(E0, c0, E, c, iset{})
    ensures Cached(s, m, Compact(E), c)
  {
    CompactKeeps(E, v);
    forall i | 0 <= i < m && LeftOf(Compact(E), s[i].v) ensures s[i].v in c && c[s[i].v] == s[i] {
      var r :| Some(Edge(s[i].v, r)) in Compact(E);
      assert Some(Edge(s[i].v, r)) in E && Touches(Edge(s[i].v, r), s[i].v);
      ShrunkLeft(E0, E, s[i].v);
    }
  }

  /** A vertex arriving on one side is on the left of the other side iff that side reached it. */
  lemma PeerLeft(s: seq<Item>, n: nat, t: seq<Item>, m: nat, R: set<Version>, F: EdgeList)
    requires Streams(s, t) && n < |s| && m <= |t| && Known(s, n, t, m, R) && Exact(t, m, R, F)
    ensures LeftOf(F, s[n].v) <==> Seen(t, m, s[n].v) && Fwd(t, R, s[n].v)
  {
    var v := s[n].v;
    OnLeft(t, m, R, F, v);
    if Seen(t, m, v) {
      SeenHas(t, m, v);
      assert !Seen(s, n, v);
      NoneBelow(s, n, t, m, R, v);
      BwdClear(t, R, v);
    }
  }

  /** What the arrival of the item at position `n` means, before anything is changed. */
  lemma Arrives(s: seq<Item>, n: nat, t: seq<Item>, m: nat, R: set<Version>,
                E: EdgeList, ind: map<Version, int>, out: map<Version, int>, cache: map<Version, Item>,
                F: EdgeList, peerInd: map<Version, int>, peerOut: map<Version, int>)
    requires Streams(s, t) && n < |s| && m <= |t| && Known(s, n, t, m, R)
    requires Consistent(s, n, R, E, ind, out) && Cached(s, n, E, cache)
    requires Consistent(t, m, R, F, peerInd, peerOut)
    ensures NoGaps(E) && NoGaps(F) && !LeftOf(E, s[n].v) && s[n].v !in R
    ensures forall u :: u in R ==> Seen(s, n, u)
    ensures Fwd(s, R, s[n].v) <==> n == 0 || exists a :: Some(Edge(a, Some(s[n].v))) in E
    ensures Cached(s, n, E, cache[s[n].v := s[n]])
    ensures !(Fwd(s, R, s[n].v) && LeftOf(F, s[n].v)) ==> Known(s, n + 1, t, m, R)
    ensures !Fwd(s, R, s[n].v) ==>
              Consistent(s, n + 1, R, E, ind, out) && Cached(s, n + 1, E, cache[s[n].v := s[n]])
  {
    var v := s[n].v;
    Included(s, n, R, E);
    NotLeftYet(s, n, R, E, v);
    PeerLeft(s, n, t, m, R, F);
    assert !Seen(s, n, v);
    if !(Fwd(s, R, v) && LeftOf(F, v)) {
      StepSkip(s, n, t, m, R);
    }
    if !Fwd(s, R, v) {
      SkipExact(s, n, R, E);
      GrowCand(s, n);
    }
  }

  lemma AddedCached(s: seq<Item>, n: nat, E0: EdgeList, E: EdgeList, cache: map<Version, Item>)
    requires Topological(s) && n < |s| && Cached(s, n, E0, cache)
    requires forall a :: a != s[n].v && LeftOf(E, a) ==> LeftOf(E0, a)
    ensures Cached(s, n + 1, E, cache[s[n].v := s[n]])
  {
  }

  lemma RecordOne(s: seq<Item>, R: set<Version>, items: map<Version, Item>, v: Version, o: Item)
    requires Recorded(s, R, items) && o in s && o.v == v
    ensures Recorded(s, R + {v}, items[v := o])
  {
  }

  /** The bookkeeping of a newly reported vertex. */
  lemma Reports(s: seq<Item>, n: nat, t: seq<Item>, m: nat, lca: seq<Version>, F: EdgeList,
                peerInd: map<Version, int>, peerOut: map<Version, int>, peerCache: map<Version, Item>)
    requires Streams(s, t) && n < |s| && m <= |t| && Known(s, n, t, m, Elems(lca)) && DescendantsFirst(s, lca)
    requires Fwd(s, Elems(lca), s[n].v) && LeftOf(F, s[n].v)
    requires Consistent(t, m, Elems(lca), F, peerInd, peerOut) && Cached(t, m, F, peerCache)
    ensures Elems(lca + [s[n].v]) == Elems(lca) + {s[n].v}
    ensures Known(s, n + 1, t, m, Elems(lca) + {s[n].v}) && DescendantsFirst(s, lca + [s[n].v])
    ensures forall u :: u in Elems(lca) + {s[n].v} ==> Seen(s, n + 1, u) && Seen(t, m, u)
    ensures m > 0 && s[n].v in peerCache && peerCache[s[n].v].v == s[n].v && peerCache[s[n].v] in t
  {
    PeerLeft(s, n, t, m, Elems(lca), F);
    StepFound(s, n, t, m, Elems(lca));
    DescendantsFirstGrows(s, n, lca);
  }

  lemma StopNow(s: seq<Item>, n: nat, t: seq<Item>, m: nat, R: set<Version>,
                E: EdgeList, ind: map<Version, int>, out: map<Version, int>,
                F: EdgeList, peerInd: map<Version, int>, peerOut: map<Version, int>)
    requires Streams(s, t) && 0 < n <= |s| && 0 < m <= |t| && Known(s, n, t, m, R)
    requires Consistent(s, n, R, E, ind, out) && Consistent(t, m, R, F, peerInd, peerOut) && (E == [] || F == [])
    ensures IsMeet(s, t, R)
  {
    if E == [] {
      EarlyStop(s, n, t, m, R, E);
    } else {
      KnownSym(s, n, t, m, R);
      AgreesSym(s, t);
      EarlyStop(t, m, s, n, R, F);
      MeetSym(t, s, R);
    }
  }

  lemma DescendantsFirstGrows(s: seq<Item>, n: nat, lca: seq<Version>)
    requires Topological(s) && n < |s| && DescendantsFirst(s, lca)
    requires forall v :: v in lca ==> Seen(s, n, v)
    ensures DescendantsFirst(s, lca + [s[n].v])
  {
    assert !Seen(s, n, s[n].v);
    forall i | 0 <= i < |lca| ensures lca[i] != s[n].v && !Anc(s, s[n].v, lca[i]) {
      assert lca[i] in lca;
      OpenNoAnc(s, n, s[n].v, lca[i]);
    }
  }

  lemma DescendantsFirstMoves(s: seq<Item>, t: seq<Item>, lca: seq<Version>)
    requires AncestryAgrees(s, t) && DescendantsFirst(s, lca)
    requires forall v :: v in lca ==> Has(s, v) && Has(t, v)
    ensures DescendantsFirst(t, lca)
  {
    forall i, j | 0 <= i < j < |lca| ensures !Anc(t, lca[j], lca[i]) {
      assert lca[i] in lca && lca[j] in lca;
      assert Anc(s, lca[j], lca[i]) <==> Anc(t, lca[j], lca[i]);
    }
  }

  /** How often `side` is served. */
  ghost function Turns(schedule: seq<bool>, side: bool): nat {
    if schedule == [] then 0 else
      Turns(schedule[..|schedule| - 1], side) + if schedule[|schedule| - 1] == side then 1 else 0
  }

  lemma {:induction false} TurnsMono(schedule: seq<bool>, k: nat, side: bool)
    requires k <= |schedule|
    ensures Turns(schedule[..k], side) <= Turns(schedule, side)
    ensures k < |schedule| ==> Turns(schedule[..k + 1], side) == Turns(schedule[..k], side) + if schedule[k] == side then 1 else 0
    decreases |schedule|
  {
    var n := |schedule| - 1;
    if k == |schedule| {
      assert schedule[..k] == schedule;
    } else {
      assert schedule[..k + 1][..k] == schedule[..k];
      if k < n {
        TurnsMono(schedule[..n], k, side);
        assert schedule[..n][..k] == schedule[..k];
      }
    }
  }

  /** One search over two streams. */
  class Search {
    const x: Side
    const y: Side
    var lca: seq<Version>
    var closed: bool

    constructor ()
      ensures fresh(x) && fresh(y) && x != y && lca == [] && !closed
      ensures x.E == [] && x.indegree == map[] && x.outdegree == map[] && x.cache == map[] && x.lca == map[]
      ensures y.E == [] && y.indegree == map[] && y.outdegree == map[] && y.cache == map[] && y.lca == map[]
    {
      x := new Side();
      y := new Side();
      lca, closed := [], false;
    }

    /** After `n` items of `s` on side `me` and `m` items of `t` on side `peer`. */
    ghost predicate Running(me: Side, s: seq<Item>, n: nat, peer: Side, t: seq<Item>, m: nat)
      reads this, me, peer
    {
      && me != peer && Streams(s, t) && Known(s, n, t, m, Elems(lca)) && DescendantsFirst(s, lca)
      && me.Inv(s, n, Elems(lca)) && peer.Inv(t, m, Elems(lca))
    }

    ghost predicate Finished(me: Side, s: seq<Item>, peer: Side, t: seq<Item>)
      reads this, me, peer
    {
      && IsMeet(s, t, Elems(lca)) && DescendantsFirst(s, lca)
      && Recorded(s, Elems(lca), me.lca) && Recorded(t, Elems(lca), peer.lca)
    }

    method ProcessNext(o: Item, me: Side, peer: Side, root: bool, ghost s: seq<Item>, ghost n: nat, ghost t: seq<Item>, ghost m: nat)
      requires Running(me, s, n, peer, t, m) && n < |s| && s[n] == o && root == (n == 0) && !closed
      modifies this`lca, this`closed, me, peer
      ensures if closed then Finished(me, s, peer, t) else Running(me, s, n + 1, peer, t, m)
    {
      hide Known, AncestryAgrees, Topological, Consistent, DescendantsFirst, IsMeet;
      hide Cached, Recorded, LeftOf, Fwd, Finished;
      var v := o.v;
      ghost var R := Elems(lca);
      Arrives(s, n, t, m, R, me.E, me.indegree, me.outdegree, me.cache, peer.E, peer.indegree, peer.outdegree);
      me.cache := me.cache[v := o];
      var _, r := Side.Lr(me.E, v);
      if r || root {
        var peerL, _ := Side.Lr(peer.E, v);
        if peerL {
          Report(o, me, peer, s, n, t, m);
        } else {
          me.AddEdges(o, s, n, R);
          AddedCached(s, n, old(me.E), me.E, old(me.cache));
        }
      }
    }

    /** A vertex reached from both starts: record it, detach it on both sides, stop if a side runs dry. */
    method Report(o: Item, me: Side, peer: Side, ghost s: seq<Item>, ghost n: nat, ghost t: seq<Item>, ghost m: nat)
      requires me != peer && Streams(s, t) && Known(s, n, t, m, Elems(lca)) && DescendantsFirst(s, lca)
      requires n < |s| && s[n] == o && !closed && Fwd(s, Elems(lca), o.v)
      requires me.Inv(s, n, Elems(lca)) && peer.Inv(t, m, Elems(lca)) && LeftOf(peer.E, o.v)
      requires o.v in me.cache && me.cache[o.v] == o
      modifies this`lca, this`closed, me, peer
      ensures if closed then Finished(me, s, peer, t) else Running(me, s, n + 1, peer, t, m)
    {
      hide Known, AncestryAgrees, Topological, Consistent, DescendantsFirst, IsMeet;
      hide Cached, LeftOf, Fwd, Elems, Seen, Recorded;
      var v := o.v;
      ghost var R := Elems(lca);
      Reports(s, n, t, m, lca, peer.E, peer.indegree, peer.outdegree, peer.cache);
      RecordOne(s, R, me.lca, v, me.cache[v]);
      RecordOne(t, R, peer.lca, v, peer.cache[v]);
      lca := lca + [v];
      me.lca := me.lca[v := me.cache[v]];
      peer.lca := peer.lca[v := peer.cache[v]];
      me.Detach(v, s, n, n + 1, R);
      peer.Detach(v, t, m, m, R);
      if me.E == [] || peer.E == [] {
        closed := true;
        StopNow(s, n + 1, t, m, R + {v}, me.E, me.indegree, me.outdegree, peer.E, peer.indegree, peer.outdegree);
      }
    }

    /** One data event of stream `x`. */
    method NextX(sX: seq<Item>, i: nat, sY: seq<Item>, j: nat)
      requires Running(x, sX, i, y, sY, j) && i < |sX| && !closed
      modifies this`lca, this`closed, x, y
      ensures if closed then Finished(x, sX, y, sY) else Running(x, sX, i + 1, y, sY, j)
    {
      ProcessNext(sX[i], x, y, i == 0, sX, i, sY, j);
    }

    /** One data event of stream `y`. */
    method NextY(sX: seq<Item>, i: nat, sY: seq<Item>, j: nat)
      requires Running(x, sX, i, y, sY, j) && j < |sY| && !closed
      modifies this`lca, this`closed, x, y
      ensures if closed then Finished(x, sX, y, sY) else Running(x, sX, i, y, sY, j + 1)
    {
      hide Known, DescendantsFirst, Cached, Consistent, Recorded, IsMeet, Topological;
      ToOtherSide(sX, i, sY, j, lca);
      ProcessNext(sY[j], y, x, j == 0, sY, j, sX, i);
      if closed {
        MeetSym(sY, sX, Elems(lca));
        DescendantsFirstMoves(sY, sX, lca);
      } else {
        ToOtherSide(sY, j + 1, sX, i, lca);
      }
    }
  }

  lemma ToOtherSide(s: seq<Item>, n: nat, t: seq<Item>, m: nat, lca: seq<Version>)
    requires Streams(s, t) && Known(s, n, t, m, Elems(lca)) && DescendantsFirst(s, lca)
    ensures Streams(t, s) && Known(t, m, s, n, Elems(lca)) && DescendantsFirst(t, lca)
  {
    KnownSym(s, n, t, m, Elems(lca));
    AgreesSym(s, t);
    forall v | v in lca ensures Has(s, v) && Has(t, v) {
      assert v in Elems(lca);
      SeenHas(s, n, v);
      SeenHas(t, m, v);
    }
    DescendantsFirstMoves(s, t, lca);
  }

  /**
   * The search over two streams served in the order of `schedule` (true serves `sX`). For every
   * schedule it returns the one set that satisfies `IsMeet`, each version with the item either
   * stream holds for it.
   */
  method FindLCAs(sX: seq<Item>, sY: seq<Item>, schedule: seq<bool>)
    returns (lca: seq<Version>, lcaX: map<Version, Item>, lcaY: map<Version, Item>)
    requires Streams(sX, sY)
    requires Turns(schedule, true) == |sX| && Turns(schedule, false) == |sY|
    ensures IsMeet(sX, sY, Elems(lca)) && DescendantsFirst(sX, lca)
    ensures lcaX.Keys == lcaY.Keys == Elems(lca)
    ensures forall v :: v in lcaX ==> lcaX[v] in sX && lcaX[v].v == v
    ensures forall v :: v in lcaY ==> lcaY[v] in sY && lcaY[v].v == v
  {
    hide Known, Streams, Consistent, DescendantsFirst, IsMeet, Cached;
    var search := new Search();
    var i, j, k := 0, 0, 0;
    Start(sX, sY);
    while k < |schedule| && !search.closed
      invariant 0 <= k <= |schedule|
      invariant i == Turns(schedule[..k], true) && j == Turns(schedule[..k], false)
      invariant fresh(search) && fresh(search.x) && fresh(search.y)
      invariant if search.closed then search.Finished(search.x, sX, search.y, sY)
                else search.Running(search.x, sX, i, search.y, sY, j)
    {
      TurnsMono(schedule, k, true);
      TurnsMono(schedule, k, false);
      TurnsMono(schedule, k + 1, true);
      TurnsMono(schedule, k + 1, false);
      if schedule[k] {
        search.NextX(sX, i, sY, j);
        i := i + 1;
      } else {
        search.NextY(sX, i, sY, j);
        j := j + 1;
      }
      k := k + 1;
    }
    lca, lcaX, lcaY := search.lca, search.x.lca, search.y.lca;
    if !search.closed {
      assert schedule[..k] == schedule;
      Drained(sX, sY, Elems(lca));
    }
  }

  lemma Start(s: seq<Item>, t: seq<Item>)
    ensures Known(s, 0, t, 0, {}) && Elems([]) == {} && DescendantsFirst(s, [])
    ensures Consistent(s, 0, {}, [], map[], map[]) && Cached(s, 0, [], map[])
    ensures Consistent(t, 0, {}, [], map[], map[]) && Cached(t, 0, [], map[])
  {
  }
}
