/**
 * What the common-ancestor search reports, stated on the two streams alone, and how that set
 * relates to common ancestors and to lowest common ancestors.
 */
module Meet {
  import opened Items
  import opened Dag
  import opened Edges
  import opened Frontier

  /** The streams tell the same ancestry about the versions they share. */
  ghost predicate AncestryAgrees(s: seq<Item>, t: seq<Item>) {
    forall u, w :: Has(s, u) && Has(s, w) && Has(t, u) && Has(t, w) ==> (Anc(s, u, w) <==> Anc(t, u, w))
  }

  /** `v` is reachable from both start vertices by paths that pass through no other member of `R`. */
  ghost predicate Meets(s: seq<Item>, t: seq<Item>, R: set<Version>, v: Version) {
    Fwd(s, R - {v}, v) && Fwd(t, R - {v}, v)
  }

  /** The set the search reports. */
  ghost predicate IsMeet(s: seq<Item>, t: seq<Item>, R: set<Version>) {
    forall v :: v in R <==> Has(s, v) && Has(t, v) && Meets(s, t, R, v)
  }

  ghost predicate Common(s: seq<Item>, t: seq<Item>, v: Version) {
    |s| > 0 && |t| > 0 && Has(s, v) && Has(t, v) && Anc(s, s[0].v, v) && Anc(t, t[0].v, v)
  }

  /** A common ancestor that is not an ancestor of another one. */
  ghost predicate Lowest(s: seq<Item>, t: seq<Item>, v: Version) {
    Common(s, t, v) && forall w :: Common(s, t, w) && Anc(s, w, v) ==> w == v
  }

  /** `R` is right about every version both sides have processed. */
  ghost predicate Known(s: seq<Item>, n: nat, t: seq<Item>, m: nat, R: set<Version>) {
    && (forall v :: v in R ==> Seen(s, n, v) && Seen(t, m, v))
    && (forall v :: Seen(s, n, v) && Seen(t, m, v) ==> (v in R <==> Meets(s, t, R, v)))
  }

  ghost predicate Streams(s: seq<Item>, t: seq<Item>) {
    Topological(s) && Topological(t) && AncestryAgrees(s, t)
  }

  lemma SeenHas(s: seq<Item>, n: nat, v: Version)
    requires Seen(s, n, v)
    ensures Has(s, v)
  {
    var i :| 0 <= i < n && s[i].v == v;
  }

  lemma AgreesSym(s: seq<Item>, t: seq<Item>)
    requires AncestryAgrees(s, t)
    ensures AncestryAgrees(t, s)
  {
    forall u, w | Has(t, u) && Has(t, w) && Has(s, u) && Has(s, w) ensures Anc(t, u, w) <==> Anc(s, u, w) {
      assert Anc(s, u, w) <==> Anc(t, u, w);
    }
  }

  lemma KnownSym(s: seq<Item>, n: nat, t: seq<Item>, m: nat, R: set<Version>)
    requires Known(s, n, t, m, R)
    ensures Known(t, m, s, n, R)
  {
    forall v | Seen(t, m, v) && Seen(s, n, v) ensures v in R <==> Meets(t, s, R, v) {
      assert v in R <==> Meets(s, t, R, v);
    }
  }

  lemma MeetSym(s: seq<Item>, t: seq<Item>, R: set<Version>)
    requires IsMeet(s, t, R)
    ensures IsMeet(t, s, R)
  {
    forall v ensures v in R <==> Has(t, v) && Has(s, v) && Meets(t, s, R, v) {
      assert v in R <==> Has(s, v) && Has(t, v) && Meets(s, t, R, v);
    }
  }

  /** A reported vertex is never an ancestor of a shared vertex that one side has yet to process. */
  lemma NoneBelow(s: seq<Item>, n: nat, t: seq<Item>, m: nat, R: set<Version>, v: Version)
    requires Streams(s, t) && n <= |s| && m <= |t| && Known(s, n, t, m, R)
    requires Has(s, v) && Has(t, v) && !Seen(s, n, v)
    ensures forall w :: w in R ==> !Anc(s, v, w) && !Anc(t, v, w)
  {
    forall w | w in R ensures !Anc(s, v, w) && !Anc(t, v, w) {
      OpenNoAnc(s, n, v, w);
      SeenHas(s, n, w);
      SeenHas(t, m, w);
      assert Anc(s, v, w) <==> Anc(t, v, w);
    }
  }

  /** Reporting one more vertex changes nothing for a vertex that is not its ancestor. */
  lemma FwdSame(s: seq<Item>, R: set<Version>, v: Version, u: Version)
    requires |s| > 0 && (!Anc(s, v, u) || u == v)
    ensures Fwd(s, R - {u}, u) <==> Fwd(s, R + {v} - {u}, u)
  {
    SmallerFlow(s, R - {u}, R + {v} - {u}, u);
    if Fwd(s, R - {u}, u) {
      ReachMono(s, s[0].v, R - {u}, R + {v} - {u}, u);
    }
  }

  lemma StepFound(s: seq<Item>, n: nat, t: seq<Item>, m: nat, R: set<Version>)
    requires Streams(s, t) && n < |s| && m <= |t| && Known(s, n, t, m, R)
    requires Seen(t, m, s[n].v) && Fwd(s, R, s[n].v) && Fwd(t, R, s[n].v)
    ensures Known(s, n + 1, t, m, R + {s[n].v})
  {
    var v := s[n].v;
    var S := R + {v};
    assert !Seen(s, n, v);
    SeenHas(t, m, v);
    assert S - {v} == R;
    forall u | Seen(s, n + 1, u) && Seen(t, m, u) ensures u in S <==> Meets(s, t, S, u) {
      if u != v {
        assert Seen(s, n, u);
        SeenHas(t, m, u);
        OpenNoAnc(s, n, v, u);
        assert Anc(s, v, u) <==> Anc(t, v, u);
        FwdSame(s, R, v, u);
        FwdSame(t, R, v, u);
      }
    }
  }

  lemma StepSkip(s: seq<Item>, n: nat, t: seq<Item>, m: nat, R: set<Version>)
    requires Streams(s, t) && n < |s| && m <= |t| && Known(s, n, t, m, R)
    requires !(Seen(t, m, s[n].v) && Fwd(s, R, s[n].v) && Fwd(t, R, s[n].v))
    ensures Known(s, n + 1, t, m, R)
  {
    var v := s[n].v;
    assert !Seen(s, n, v);
    assert R - {v} == R;
    forall u | Seen(s, n + 1, u) && Seen(t, m, u) ensures u in R <==> Meets(s, t, R, u) {
      if u != v {
        assert Seen(s, n, u);
      }
    }
    forall u | u in R ensures Seen(s, n + 1, u) {
      assert Seen(s, n, u);
    }
  }

  /** When both streams are exhausted the reported set is right everywhere. */
  lemma Drained(s: seq<Item>, t: seq<Item>, R: set<Version>)
    requires Known(s, |s|, t, |t|, R)
    ensures IsMeet(s, t, R)
  {
    forall v ensures (Has(s, v) <==> Seen(s, |s|, v)) && (Has(t, v) <==> Seen(t, |t|, v)) {
    }
  }

  /** A path from a processed vertex to one still to come leaves the processed part somewhere. */
  lemma Crossing(s: seq<Item>, n: nat, R: set<Version>, v: Version) returns (a: Version, b: Version)
    requires 0 < n <= |s| && Fwd(s, R, v) && !Seen(s, n, v)
    ensures Seen(s, n, a) && Fwd(s, R, a) && Parent(s, a, b) && !Seen(s, n, b) && b !in R
  {
    var ps :| PathFrom(s, ps, s[0].v, v) && Avoids(ps, R);
    var k := 0;
    while Seen(s, n, ps[k + 1])
      invariant k + 1 < |ps| && Seen(s, n, ps[k])
      decreases |ps| - k
    {
      k := k + 1;
    }
    a, b := ps[k], ps[k + 1];
    assert PathFrom(s, ps[..k + 1], s[0].v, a) && Avoids(ps[..k + 1], R);
  }

  /** Stopping when one edge list has become empty loses nothing. */
  lemma EarlyStop(s: seq<Item>, n: nat, t: seq<Item>, m: nat, R: set<Version>, E: EdgeList)
    requires Streams(s, t) && 0 < n <= |s| && m <= |t| && Known(s, n, t, m, R)
    requires Exact(s, n, R, E) && E == []
    ensures IsMeet(s, t, R)
  {
    forall v ensures v in R <==> Has(s, v) && Has(t, v) && Meets(s, t, R, v) {
      if v in R {
        SeenHas(s, n, v);
        SeenHas(t, m, v);
      } else if Has(s, v) && Has(t, v) && Fwd(s, R - {v}, v) {
        assert R - {v} == R;
        if !Seen(s, n, v) {
          EmptyMeansSeen(s, n, R, E, v);
        } else if !Seen(t, m, v) {
          KnownSym(s, n, t, m, R);
          AgreesSym(s, t);
          NoneBelow(t, m, s, n, R, v);
          BwdClear(s, R, v);
          OnLeft(s, n, R, E, v);
        }
      }
    }
  }

  lemma EmptyMeansSeen(s: seq<Item>, n: nat, R: set<Version>, E: EdgeList, v: Version)
    requires Topological(s) && 0 < n <= |s| && Exact(s, n, R, E) && E == []
    requires Fwd(s, R, v)
    requires forall w :: w in R ==> Seen(s, n, w)
    ensures Seen(s, n, v)
  {
    if !Seen(s, n, v) {
      var a, b := Crossing(s, n, R, v);
      BwdOpen(s, n, R, b);
      EdgeItem(s, n, a, b);
      var flow := FlowOf(s, n, R);
      assert Edge(a, Some(b)) in flow.cand && flow.Useful(Edge(a, Some(b)));
    }
  }

  // ---- what the reported set means ----

  /** There is at most one such set, so the outcome does not depend on the interleaving. */
  lemma MeetUnique(s: seq<Item>, t: seq<Item>, R: set<Version>, S: set<Version>)
    requires Streams(s, t) && IsMeet(s, t, R) && IsMeet(s, t, S)
    ensures R == S
  {
    forall v | Has(s, v) ensures v in R <==> v in S {
      var i :| 0 <= i < |s| && s[i].v == v;
      MeetUniqueUpTo(s, t, R, S, i);
    }
    assert forall v :: v in R ==> Has(s, v);
    assert forall v :: v in S ==> Has(s, v);
  }

  lemma {:induction false} MeetUniqueUpTo(s: seq<Item>, t: seq<Item>, R: set<Version>, S: set<Version>, i: nat)
    requires Streams(s, t) && IsMeet(s, t, R) && IsMeet(s, t, S) && i < |s|
    ensures s[i].v in R <==> s[i].v in S
    decreases i, 1
  {
    MeetUniqueHalf(s, t, R, S, i);
    MeetUniqueHalf(s, t, S, R, i);
  }

  lemma {:induction false} MeetUniqueHalf(s: seq<Item>, t: seq<Item>, R: set<Version>, S: set<Version>, i: nat)
    requires Streams(s, t) && IsMeet(s, t, R) && IsMeet(s, t, S) && i < |s|
    ensures s[i].v in R ==> s[i].v in S
    decreases i, 0
  {
    var v := s[i].v;
    if v in R {
      assert Has(s, v) && Has(t, v) && Meets(s, t, R, v);
      forall w | w in S && w !in R && w != v ensures !Anc(s, w, v) && !Anc(t, w, v) {
        assert Has(s, w) && Has(t, w);
        if Anc(s, w, v) {
          var j :| 0 <= j < |s| && s[j].v == w;
          AncOrder(s, j, i);
          MeetUniqueUpTo(s, t, R, S, j);
        }
        assert Anc(s, w, v) <==> Anc(t, w, v);
      }
      ReachMono(s, s[0].v, R - {v}, S - {v}, v);
      ReachMono(t, t[0].v, R - {v}, S - {v}, v);
    }
  }

  /** Every reported version is a common ancestor (or one of the roots). */
  lemma MeetIsCommon(s: seq<Item>, t: seq<Item>, R: set<Version>, v: Version)
    requires IsMeet(s, t, R) && v in R
    ensures Common(s, t, v)
  {
    assert Meets(s, t, R, v);
    ReachEnds(s, s[0].v, R - {v}, v);
    ReachEnds(t, t[0].v, R - {v}, v);
  }

  /** Every lowest common ancestor is reported. */
  lemma LowestReported(s: seq<Item>, t: seq<Item>, R: set<Version>, v: Version)
    requires Streams(s, t) && IsMeet(s, t, R) && Lowest(s, t, v)
    ensures v in R
  {
    forall w | w in R && w != v ensures !Anc(s, w, v) && !Anc(t, w, v) {
      MeetIsCommon(s, t, R, w);
      assert Anc(s, w, v) <==> Anc(t, w, v);
    }
    LowestMeets(s, t, R, v);
  }

  lemma LowestMeets(s: seq<Item>, t: seq<Item>, R: set<Version>, v: Version)
    requires Common(s, t, v)
    requires forall w :: w in R && w != v ==> !Anc(s, w, v) && !Anc(t, w, v)
    ensures Meets(s, t, R, v)
  {
    AncIsReach(s, s[0].v, v);
    AncIsReach(t, t[0].v, v);
    ReachMono(s, s[0].v, {}, R - {v}, v);
    ReachMono(t, t[0].v, {}, R - {v}, v);
  }

  /** Below every common ancestor, or at it, lies a lowest one. */
  lemma {:induction false} LowestBelow(s: seq<Item>, t: seq<Item>, i: nat) returns (w: Version)
    requires Streams(s, t) && i < |s| && Common(s, t, s[i].v)
    ensures Lowest(s, t, w) && Anc(s, w, s[i].v)
    decreases i
  {
    var v := s[i].v;
    if Lowest(s, t, v) {
      w := v;
      assert PathFrom(s, [v], v, v);
    } else {
      var u :| Common(s, t, u) && Anc(s, u, v) && u != v;
      var j :| 0 <= j < |s| && s[j].v == u;
      AncOrder(s, j, i);
      w := LowestBelow(s, t, j);
      AncTrans(s, w, u, v);
    }
  }

  /** Nothing is reported iff the two roots share no ancestor. */
  lemma MeetEmpty(s: seq<Item>, t: seq<Item>, R: set<Version>)
    requires Streams(s, t) && IsMeet(s, t, R)
    ensures R == {} <==> forall v :: !Common(s, t, v)
  {
    if v :| Common(s, t, v) {
      var i :| 0 <= i < |s| && s[i].v == v;
      var w := LowestBelow(s, t, i);
      LowestReported(s, t, R, w);
    }
    if R != {} {
      var v :| v in R;
      MeetIsCommon(s, t, R, v);
    }
  }

  /** No reported version is an ancestor of a version reported after it. */
  ghost predicate DescendantsFirst(s: seq<Item>, lca: seq<Version>) {
    forall i, j :: 0 <= i < j < |lca| ==> lca[i] != lca[j] && !Anc(s, lca[j], lca[i])
  }

  ghost function Elems(lca: seq<Version>): set<Version> {
    set v | v in lca
  }

  /** The first reported version is a lowest common ancestor. */
  lemma FirstIsLowest(s: seq<Item>, t: seq<Item>, lca: seq<Version>)
    requires Streams(s, t) && IsMeet(s, t, Elems(lca)) && DescendantsFirst(s, lca) && lca != []
    ensures Lowest(s, t, lca[0])
  {
    var v := lca[0];
    assert v in Elems(lca);
    MeetIsCommon(s, t, Elems(lca), v);
    var i :| 0 <= i < |s| && s[i].v == v;
    var w := LowestBelow(s, t, i);
    LowestReported(s, t, Elems(lca), w);
    var k :| 0 <= k < |lca| && lca[k] == w;
  }

  /**
   * The search is documented to return the lowest common ancestors. It does exactly when every
   * other common ancestor is screened off: from one of the roots, all paths to it pass through
   * a lowest common ancestor.
   */
  ghost predicate Screened(s: seq<Item>, t: seq<Item>, L: set<Version>) {
    forall v :: Common(s, t, v) && v !in L ==> !(Fwd(s, L, v) && Fwd(t, L, v))
  }

  lemma MeetIsLowest(s: seq<Item>, t: seq<Item>, R: set<Version>, L: set<Version>)
    requires Streams(s, t) && IsMeet(s, t, R) && forall v :: v in L <==> Lowest(s, t, v)
    ensures R == L <==> Screened(s, t, L)
  {
    if R == L {
      forall v | Common(s, t, v) && v !in L ensures !(Fwd(s, L, v) && Fwd(t, L, v)) {
        assert L - {v} == L;
        assert !Meets(s, t, R, v);
      }
    }
    if Screened(s, t, L) {
      forall v ensures v in L <==> Has(s, v) && Has(t, v) && Meets(s, t, L, v) {
        if v in L {
          forall w | w in L && w != v ensures !Anc(s, w, v) && !Anc(t, w, v) {
            assert Anc(s, w, v) <==> Anc(t, w, v);
          }
          LowestMeets(s, t, L, v);
        } else if Has(s, v) && Has(t, v) && Meets(s, t, L, v) {
          assert L - {v} == L;
          ReachEnds(s, s[0].v, L, v);
          ReachEnds(t, t[0].v, L, v);
        }
      }
      MeetUnique(s, t, R, L);
    }
  }

  /** Two streams cut from one graph, each with all ancestors of its items, agree on ancestry. */
  lemma SameGraphAgrees(s: seq<Item>, t: seq<Item>)
    requires forall i, j :: 0 <= i < |s| && 0 <= j < |t| && s[i].v == t[j].v ==> s[i].pa == t[j].pa
    requires Closed(s) && Closed(t)
    ensures AncestryAgrees(s, t)
  {
    forall u, w | Has(s, u) && Has(s, w) && Has(t, u) && Has(t, w) ensures Anc(s, u, w) <==> Anc(t, u, w) {
      if ps :| PathFrom(s, ps, u, w) {
        PathMoves(s, t, ps);
        assert PathFrom(t, ps, u, w);
      }
      if ps :| PathFrom(t, ps, u, w) {
        PathMoves(t, s, ps);
        assert PathFrom(s, ps, u, w);
      }
    }
  }

  /** Every parent of an item is in the stream as well. */
  ghost predicate Closed(s: seq<Item>) {
    forall i, p :: 0 <= i < |s| && p in s[i].pa ==> Has(s, p)
  }

  lemma {:induction false} PathMoves(s: seq<Item>, t: seq<Item>, ps: seq<Version>)
    requires forall i, j :: 0 <= i < |s| && 0 <= j < |t| && s[i].v == t[j].v ==> s[i].pa == t[j].pa
    requires Path(s, ps) && Has(t, ps[0]) && Closed(t)
    ensures Path(t, ps)
    decreases |ps|
  {
    if |ps| > 1 {
      assert Parent(s, ps[0], ps[1]);
      var i :| 0 <= i < |s| && s[i].v == ps[0] && ps[1] in s[i].pa;
      var j :| 0 <= j < |t| && t[j].v == ps[0];
      assert Parent(t, ps[0], ps[1]);
      PathMoves(s, t, ps[1..]);
      forall k | 0 < k < |ps| ensures Parent(t, ps[k - 1], ps[k]) {
        if k > 1 {
          assert Parent(t, ps[1..][k - 2], ps[1..][k - 1]);
        }
      }
    }
  }

  // ---- the reported set can be larger than the lowest common ancestors ----

  function Bare(v: byte, pa: seq<Version>): Item {
    Item(Id([1]), Version([v]), pa, false, false, None, None, None)
  }

  /** A root with parents 2 and `side`, both children of 3. */
  function Diamond(root: byte, side: byte): (s: seq<Item>)
    ensures |s| == 4 && s[0].v == Version([root])
  {
    [Bare(root, [Version([2]), Version([side])]), Bare(2, [Version([3])]), Bare(side, [Version([3])]), Bare(3, [])]
  }

  lemma DiamondShape(root: byte, side: byte)
    requires root > 3 && side > 3 && root != side
    ensures Topological(Diamond(root, side)) && Closed(Diamond(root, side))
    ensures forall u :: Has(Diamond(root, side), u) <==> u in {Version([root]), Version([2]), Version([side]), Version([3])}
    ensures Diamond(root, side)[1].v == Version([2])
  {
    var s := Diamond(root, side);
    OneByte();
    assert s[0].v == Version([root]) && s[1].v == Version([2]) && s[2].v == Version([side]) && s[3].v == Version([3]);
  }

  lemma DiamondParents()
    ensures var s, t := Diamond(4, 5), Diamond(6, 7);
      forall i, j :: 0 <= i < |s| && 0 <= j < |t| && s[i].v == t[j].v ==> s[i].pa == t[j].pa
  {
    OneByte();
  }

  lemma DiamondPaths(root: byte, side: byte)
    requires root > 3 && side > 3 && root != side
    ensures var s := Diamond(root, side);
      && Anc(s, Version([2]), Version([3]))
      && Fwd(s, {Version([3])}, Version([2])) && Fwd(s, {Version([2])}, Version([3]))
  {
    var s := Diamond(root, side);
    var r, v, a, w := Version([root]), Version([2]), Version([side]), Version([3]);
    OneByte();
    assert s[0].v == r && s[0].pa[0] == v && s[0].pa[1] == a;
    assert s[1].v == v && s[1].pa[0] == w && s[2].v == a && s[2].pa[0] == w;
    assert Parent(s, r, v) && Parent(s, r, a) && Parent(s, v, w) && Parent(s, a, w);
    hide Diamond, Parent;
    assert PathFrom(s, [v, w], v, w);
    assert PathFrom(s, [r, v], r, v) && Avoids([r, v], {w});
    assert PathFrom(s, [r, a, w], r, w) && Avoids([r, a, w], {v});
  }

  lemma DiamondsMeet()
    ensures var s, t := Diamond(4, 5), Diamond(6, 7);
      Streams(s, t) && IsMeet(s, t, {Version([2]), Version([3])})
  {
    hide Topological, Closed, AncestryAgrees, Fwd, Anc, Diamond, Has;
    var s, t := Diamond(4, 5), Diamond(6, 7);
    var v, w := Version([2]), Version([3]);
    DiamondPaths(4, 5);
    DiamondPaths(6, 7);
    DiamondShape(4, 5);
    DiamondShape(6, 7);
    OneByte();
    DiamondParents();
    SameGraphAgrees(s, t);
    assert {v, w} - {v} == {w} && {v, w} - {w} == {v};
  }

  lemma OneByte()
    ensures forall a: byte, b: byte :: Version([a]) == Version([b]) ==> a == b
  {
    forall a: byte, b: byte | Version([a]) == Version([b]) ensures a == b {
      assert Version([a]).bytes[0] == Version([b]).bytes[0];
    }
  }

  /**
   * Two roots that share the parent 2, each with a second parent of its own, all children of 3:
   * the search reports 2 and 3, although 3 is an ancestor of 2.
   */
  lemma ReportsMoreThanLowest()
    ensures var s, t := Diamond(4, 5), Diamond(6, 7);
      && Streams(s, t) && IsMeet(s, t, {Version([2]), Version([3])})
      && Lowest(s, t, Version([2])) && Common(s, t, Version([3])) && !Lowest(s, t, Version([3]))
  {
    hide Streams, IsMeet, Closed, Fwd, Anc, Diamond;
    var s, t := Diamond(4, 5), Diamond(6, 7);
    var v, w := Version([2]), Version([3]);
    DiamondsMeet();
    DiamondPaths(4, 5);
    DiamondShape(4, 5);
    OneByte();
    MeetIsCommon(s, t, {v, w}, v);
    MeetIsCommon(s, t, {v, w}, w);
    var u := LowestBelow(s, t, 1);
    LowestReported(s, t, {v, w}, u);
  }
}
