/** Version graphs given as item streams: paths, ancestry and topological order. */
module Dag {
  import opened Items

  /** Whether some item of `s` has version `v`. */
  ghost predicate Has(s: seq<Item>, v: Version) {
    exists i :: 0 <= i < |s| && s[i].v == v
  }

  /** Whether `s` has an item `a` that names `p` as a parent. */
  ghost predicate Parent(s: seq<Item>, a: Version, p: Version) {
    exists i :: 0 <= i < |s| && s[i].v == a && p in s[i].pa
  }

  /** A walk from a version towards its ancestors. */
  ghost predicate Path(s: seq<Item>, ps: seq<Version>) {
    |ps| > 0 && forall k :: 0 < k < |ps| ==> Parent(s, ps[k - 1], ps[k])
  }

  ghost predicate PathFrom(s: seq<Item>, ps: seq<Version>, a: Version, b: Version) {
    Path(s, ps) && ps[0] == a && ps[|ps| - 1] == b
  }

  ghost predicate Avoids(ps: seq<Version>, R: set<Version>) {
    forall k :: 0 <= k < |ps| ==> ps[k] !in R
  }

  /** `u` is `a` itself or an ancestor of `a`. */
  ghost predicate Anc(s: seq<Item>, a: Version, u: Version) {
    exists ps :: PathFrom(s, ps, a, u)
  }

  /** `u` is reachable from `a` by a path that touches no member of `R`, the ends included. */
  ghost predicate Reach(s: seq<Item>, a: Version, R: set<Version>, u: Version) {
    exists ps :: PathFrom(s, ps, a, u) && Avoids(ps, R)
  }

  ghost predicate Distinct(s: seq<Item>) {
    forall i, j :: 0 <= i < j < |s| ==> s[i].v != s[j].v
  }

  /** Children first: no item names an earlier item, or itself, as a parent. */
  ghost predicate Sorted(s: seq<Item>) {
    forall i, j :: 0 <= i <= j < |s| ==> s[i].v !in s[j].pa
  }

  ghost predicate Topological(s: seq<Item>) {
    Distinct(s) && Sorted(s)
  }

  lemma ReachRefl(s: seq<Item>, a: Version, R: set<Version>)
    requires a !in R
    ensures Reach(s, a, R, a)
  {
    assert PathFrom(s, [a], a, a);
  }

  lemma ReachStep(s: seq<Item>, a: Version, R: set<Version>, b: Version, c: Version)
    requires Reach(s, a, R, b) && Parent(s, b, c) && c !in R
    ensures Reach(s, a, R, c)
  {
    var ps :| PathFrom(s, ps, a, b) && Avoids(ps, R);
    assert PathFrom(s, ps + [c], a, c) && Avoids(ps + [c], R);
  }

  /** A path that does not end where it starts has a last step. */
  lemma ReachLast(s: seq<Item>, a: Version, R: set<Version>, u: Version) returns (b: Version)
    requires Reach(s, a, R, u) && a != u
    ensures Reach(s, a, R, b) && Parent(s, b, u)
  {
    var ps :| PathFrom(s, ps, a, u) && Avoids(ps, R);
    b := ps[|ps| - 2];
    var qs := ps[..|ps| - 1];
    assert PathFrom(s, qs, a, b) && Avoids(qs, R);
  }

  lemma ReachFirst(s: seq<Item>, a: Version, R: set<Version>, u: Version) returns (b: Version)
    requires Reach(s, a, R, u) && a != u
    ensures Parent(s, a, b) && Reach(s, b, R, u)
  {
    var ps :| PathFrom(s, ps, a, u) && Avoids(ps, R);
    b := ps[1];
    var qs := ps[1..];
    assert PathFrom(s, qs, b, u) && Avoids(qs, R);
  }

  lemma ReachEnds(s: seq<Item>, a: Version, R: set<Version>, u: Version)
    requires Reach(s, a, R, u)
    ensures a !in R && u !in R && Anc(s, a, u)
  {
    var ps :| PathFrom(s, ps, a, u) && Avoids(ps, R);
  }

  lemma ReachTrans(s: seq<Item>, a: Version, R: set<Version>, b: Version, c: Version)
    requires Reach(s, a, R, b) && Reach(s, b, R, c)
    ensures Reach(s, a, R, c)
  {
    var ps :| PathFrom(s, ps, a, b) && Avoids(ps, R);
    var qs :| PathFrom(s, qs, b, c) && Avoids(qs, R);
    var rs := ps + qs[1..];
    assert PathFrom(s, rs, a, c) by {
      forall k | 0 < k < |rs| ensures Parent(s, rs[k - 1], rs[k]) {
        if k >= |ps| {
          assert rs[k] == qs[k - |ps| + 1];
          assert rs[k - 1] == qs[k - |ps|];
        }
      }
    }
    assert Avoids(rs, R);
  }

  lemma AncIsReach(s: seq<Item>, a: Version, u: Version)
    ensures Anc(s, a, u) <==> Reach(s, a, {}, u)
  {
    if Anc(s, a, u) {
      var ps :| PathFrom(s, ps, a, u);
      assert Avoids(ps, {});
    }
  }

  lemma AncTrans(s: seq<Item>, a: Version, b: Version, c: Version)
    requires Anc(s, a, b) && Anc(s, b, c)
    ensures Anc(s, a, c)
  {
    AncIsReach(s, a, b);
    AncIsReach(s, b, c);
    ReachTrans(s, a, {}, b, c);
    AncIsReach(s, a, c);
  }

  /** If every vertex of `S - R` fails to lie between `a` and `u`, growing `R` to `S` keeps `u` reachable. */
  lemma ReachMono(s: seq<Item>, a: Version, R: set<Version>, S: set<Version>, u: Version)
    requires Reach(s, a, R, u)
    requires forall w :: w in S && w !in R ==> !Anc(s, a, w) || !Anc(s, w, u)
    ensures Reach(s, a, S, u)
  {
    var ps :| PathFrom(s, ps, a, u) && Avoids(ps, R);
    forall k | 0 <= k < |ps| ensures ps[k] !in S {
      assert PathFrom(s, ps[..k + 1], a, ps[k]);
      assert PathFrom(s, ps[k..], ps[k], u);
    }
  }

  /** In a topological stream a path only moves to later positions. */
  lemma {:induction false} PathOrder(s: seq<Item>, ps: seq<Version>, i: nat, j: nat)
    requires Topological(s) && Path(s, ps)
    requires i < |s| && j < |s| && s[i].v == ps[0] && s[j].v == ps[|ps| - 1]
    ensures i <= j
    ensures |ps| > 1 ==> i < j
    decreases |ps|
  {
    if |ps| > 1 {
      assert Parent(s, ps[0], ps[1]);
      if |ps| == 2 {
      } else {
        assert Parent(s, ps[1], ps[2]);
        var k :| 0 <= k < |s| && s[k].v == ps[1] && ps[2] in s[k].pa;
        PathOrder(s, ps[1..], k, j);
      }
    }
  }

  lemma AncOrder(s: seq<Item>, i: nat, j: nat)
    requires Topological(s) && i < |s| && j < |s| && Anc(s, s[i].v, s[j].v)
    ensures i <= j
  {
    var ps :| PathFrom(s, ps, s[i].v, s[j].v);
    PathOrder(s, ps, i, j);
  }
}
