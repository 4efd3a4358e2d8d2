/** Merging two heads bound by their common ancestor: fast-forward or a new item with both as parents. */
module Merge {
  import opened Items
  import opened Dag
  import opened Meet
  import opened FindLcas
  import opened ThreeWay

  /** An item as the merge sees it; a virtual merge has no version, a new item no number. */
  datatype Node = Node(id: Id, v: Option<Version>, pa: seq<Version>, d: bool, i: Option<nat>, b: Option<Body>)

  datatype MergeOutcome =
    | Both(x: Node, y: Node)
    | LcaMismatch
    | MergeConflict(keys: seq<string>)
    | NoDocument                     // an ancestor without a document cannot be merged against
    | NoLca
    | SeveralLcas

  /** An item keeps all it has; only its perspective and its conflict flag play no part. */
  function NodeOf(it: Item): (n: Node)
    ensures n.id == it.id && n.v == Some(it.v) && n.pa == it.pa && n.d == it.d && n.i == it.i && n.b == it.b
  {
    Node(it.id, Some(it.v), it.pa, it.d, it.i, it.b)
  }

  /** The document of an item; one without a document counts as empty. */
  function BodyOf(b: Option<Body>): (r: Body)
    ensures b == Some(r) || (b == None && r == map[])
  {
    if b.Some? then b.value else map[]
  }

  function Doc(n: Node): Body {
    BodyOf(n.b)
  }

  /** The parents a genuine merge takes over from one side. */
  function ParentsFrom(n: Node): (pa: seq<Version>)
    ensures if n.v.Some? then pa == [n.v.value] else pa == n.pa
  {
    if n.v.Some? then [n.v.value] else n.pa
  }

  /** No key is in conflict. */
  ghost predicate NoConflict(a: Body, b: Body, la: Body, lb: Body) {
    forall k :: OutcomeOf(a, b, la, lb, k).Value?
  }

  /** The document is what the key-by-key merge makes of two documents and their ancestors. */
  ghost predicate IsMerge(doc: Option<Body>, a: Body, b: Body, la: Body, lb: Body) {
    doc.Some? && forall k :: OutcomeOf(a, b, la, lb, k) == Value(ThreeWay.Lookup(doc.value, k))
  }

  /** The keys are those in conflict, and there are some. */
  ghost predicate ConflictsAre(keys: seq<string>, a: Body, b: Body, la: Body, lb: Body) {
    keys != [] && forall k :: k in keys <==> OutcomeOf(a, b, la, lb, k).Conflict?
  }

  ghost predicate ForwardsToY(x: Node, y: Node, lca: Node) {
    x.v != y.v && lca.v.Some? && lca.v == x.v
  }

  ghost predicate ForwardsToX(x: Node, y: Node, lca: Node) {
    x.v != y.v && lca.v.Some? && lca.v == y.v
  }

  /** `n` recreates `to` for the other perspective. */
  ghost predicate Recreates(n: Node, to: Node, id: Id) {
    n.id == id && n.v == to.v && n.pa == to.pa && n.d == to.d && n.i == None
  }

  /** A fast-forward to `to`: unless keys are in conflict, `to` itself and its copy for the other perspective. */
  ghost predicate IsForward(r: MergeOutcome, from: Node, to: Node, lca: Node, lcaTo: Node,
                            copy: Option<Node>, kept: Option<Node>) {
    if NoConflict(Doc(from), Doc(to), Doc(lca), Doc(lcaTo)) then
      && r.Both? && copy.Some? && kept == Some(to) && Recreates(copy.value, to, from.id)
      && IsMerge(copy.value.b, Doc(from), Doc(to), Doc(lca), Doc(lcaTo))
    else
      r.MergeConflict? && ConflictsAre(r.keys, Doc(from), Doc(to), Doc(lca), Doc(lcaTo))
  }

  ghost predicate IsGenuine(r: MergeOutcome, x: Node, y: Node, lcaX: Node, lcaY: Node) {
    if lcaX.b.None? then r == NoDocument
    else if lcaY.b.None? then
      // the one ancestor serves both sides first; then the other one is missed
      if NoConflict(Doc(x), Doc(y), Doc(lcaX), Doc(lcaX)) then r == NoDocument
      else r.MergeConflict? && ConflictsAre(r.keys, Doc(x), Doc(y), Doc(lcaX), Doc(lcaX))
    else if !NoConflict(Doc(x), Doc(y), Doc(lcaX), Doc(lcaY)) then
      r.MergeConflict? && ConflictsAre(r.keys, Doc(x), Doc(y), Doc(lcaX), Doc(lcaY))
    else if !NoConflict(Doc(y), Doc(x), Doc(lcaY), Doc(lcaX)) then
      r.MergeConflict? && ConflictsAre(r.keys, Doc(y), Doc(x), Doc(lcaY), Doc(lcaX))
    else
      && r.Both?
      && r.x == Node(x.id, None, ParentsFrom(x) + ParentsFrom(y), x.d && y.d, None, r.x.b)
      && r.y == Node(y.id, None, ParentsFrom(x) + ParentsFrom(y), x.d && y.d, None, r.y.b)
      && IsMerge(r.x.b, Doc(x), Doc(y), Doc(lcaX), Doc(lcaY))
      && IsMerge(r.y.b, Doc(y), Doc(x), Doc(lcaY), Doc(lcaX))
  }

  /** What merging two items bound by an ancestor in each tree has to give. */
  ghost predicate IsOutcome(r: MergeOutcome, x: Node, y: Node, lcaX: Node, lcaY: Node) {
    var rx, ry := if r.Both? then Some(r.x) else None, if r.Both? then Some(r.y) else None;
    if lcaX.v != lcaY.v then r == LcaMismatch
    else if x.v == y.v then r == Both(x, y)
    else if ForwardsToY(x, y, lcaX) then IsForward(r, x, y, lcaX, lcaY, rx, ry)
    else if ForwardsToX(x, y, lcaX) then IsForward(r, y, x, lcaY, lcaX, ry, rx)
    else IsGenuine(r, x, y, lcaX, lcaY)
  }

  method DoMerge(itemX: Node, itemY: Node, lcaX: Node, lcaY: Node) returns (r: MergeOutcome)
    ensures IsOutcome(r, itemX, itemY, lcaX, lcaY)
  {
    hide OutcomeOf;
    if lcaX.v != lcaY.v {
      return LcaMismatch;
    }
    if itemX.v == itemY.v {
      return Both(itemX, itemY);
    }
    var paX: seq<Version>, paY: seq<Version> := [], [];
    var dX, dY := false, false;
    if itemX.d && itemY.d {
      dX, dY := true, true;
    }
    if lcaX.v.Some? && lcaX.v == itemX.v {
      var mergeX := ThreeWayMerge(Doc(itemX), Doc(itemY), Doc(lcaX), Some(Doc(lcaY)));
      if mergeX.Conflicts? { return MergeConflict(mergeX.keys); }
      if itemY.d { dX := true; }
      paX := paX + itemY.pa;
      return Both(Node(itemX.id, itemY.v, paX, dX, None, Some(mergeX.body)), itemY);
    }
    if lcaX.v.Some? && lcaX.v == itemY.v {
      var mergeY := ThreeWayMerge(Doc(itemY), Doc(itemX), Doc(lcaY), Some(Doc(lcaX)));
      if mergeY.Conflicts? { return MergeConflict(mergeY.keys); }
      if itemX.d { dY := true; }
      paY := paY + itemX.pa;
      return Both(itemX, Node(itemY.id, itemX.v, paY, dY, None, Some(mergeY.body)));
    }
    r := GenuineMerge(itemX, itemY, lcaX, lcaY, dX, dY);
  }

  /** Neither item is the ancestor: both are parents of what is made. */
  method GenuineMerge(itemX: Node, itemY: Node, lcaX: Node, lcaY: Node, dX: bool, dY: bool) returns (r: MergeOutcome)
    requires lcaX.v == lcaY.v && itemX.v != itemY.v && dX == dY == (itemX.d && itemY.d)
    requires !ForwardsToY(itemX, itemY, lcaX) && !ForwardsToX(itemX, itemY, lcaX)
    ensures IsGenuine(r, itemX, itemY, lcaX, lcaY)
  {
    hide OutcomeOf;
    var paX: seq<Version>, paY: seq<Version> := [], [];
    if itemX.v.Some? {
      paX, paY := paX + [itemX.v.value], paY + [itemX.v.value];
    } else {
      paX, paY := paX + itemX.pa, paY + itemX.pa;
    }
    if itemY.v.Some? {
      paX, paY := paX + [itemY.v.value], paY + [itemY.v.value];
    } else {
      paX, paY := paX + itemY.pa, paY + itemY.pa;
    }
    if lcaX.b.None? { return NoDocument; }
    var mergeX := ThreeWayMerge(Doc(itemX), Doc(itemY), lcaX.b.value, lcaY.b);
    if mergeX.Conflicts? { return MergeConflict(mergeX.keys); }
    if lcaY.b.None? { return NoDocument; }
    var mergeY := ThreeWayMerge(Doc(itemY), Doc(itemX), lcaY.b.value, lcaX.b);
    if mergeY.Conflicts? { return MergeConflict(mergeY.keys); }
    return Both(Node(itemX.id, None, paX, dX, None, Some(mergeX.body)), Node(itemY.id, None, paY, dY, None, Some(mergeY.body)));
  }

  // ---- which outcome, in terms of the graph ----

  /** The root of `s` is the root of `t` or one of its ancestors. */
  ghost predicate RootIsAncestor(s: seq<Item>, t: seq<Item>) {
    s != [] && t != [] && Has(t, s[0].v) && Anc(t, t[0].v, s[0].v)
  }

  /** A single reported ancestor is a root exactly when that root is an ancestor of the other one. */
  lemma SingleLcaIsRoot(s: seq<Item>, t: seq<Item>, u: Version)
    requires Streams(s, t) && IsMeet(s, t, {u})
    ensures s != [] && t != []
    ensures u == s[0].v <==> RootIsAncestor(s, t)
    ensures u == t[0].v <==> RootIsAncestor(t, s)
  {
    MeetIsCommon(s, t, {u}, u);
    if RootIsAncestor(s, t) {
      RootIsLowest(s, t);
      LowestReported(s, t, {u}, s[0].v);
    }
    if RootIsAncestor(t, s) {
      AgreesSym(s, t);
      MeetSym(s, t, {u});
      RootIsLowest(t, s);
      LowestReported(t, s, {u}, t[0].v);
    }
  }

  lemma RootIsLowest(s: seq<Item>, t: seq<Item>)
    requires Streams(s, t) && RootIsAncestor(s, t)
    ensures Lowest(s, t, s[0].v)
  {
    var x := s[0].v;
    assert PathFrom(s, [x], x, x);
    forall w | Common(s, t, w) && Anc(s, w, x) ensures w == x {
      var i :| 0 <= i < |s| && s[i].v == w;
      AncOrder(s, i, 0);
    }
  }

  /** Merging a fast-forwarded document changes nothing but the perspective: it becomes the other document. */
  lemma ForwardTakesDocument(doc: Option<Body>, a: Body, b: Body)
    requires IsMerge(doc, a, b, a, a)
    ensures doc.value == b
  {
    forall k ensures ThreeWay.Lookup(doc.value, k) == ThreeWay.Lookup(b, k) {
      assert OutcomeOf(a, b, a, a, k) == Value(ThreeWay.Lookup(doc.value, k));
    }
    assert forall k :: k in doc.value <==> ThreeWay.Lookup(doc.value, k).Some?;
    assert forall k :: k in b <==> ThreeWay.Lookup(b, k).Some?;
    assert forall k :: k in b ==> ThreeWay.Lookup(b, k) == ThreeWay.Lookup(doc.value, k);
  }

  /**
   * The result of merging the first items of two streams: which ancestors were found, how the two
   * documents were merged against them, and how the result relates to the version graph. With one
   * common ancestor it is a fast-forward exactly when one of the two roots is an ancestor of the
   * other; otherwise both results have the two roots as parents.
   */
  ghost predicate Settles(sX: seq<Item>, sY: seq<Item>, r: MergeOutcome, lcas: seq<Version>) {
    && IsMeet(sX, sY, Elems(lcas)) && DescendantsFirst(sX, lcas)
    && (r == NoLca <==> forall v :: !Common(sX, sY, v))
    && (r == NoLca <==> |lcas| == 0)
    && (r == SeveralLcas <==> |lcas| > 1)
    && r != LcaMismatch
    && (|lcas| == 1 ==> sX != [] && sY != [] && MergedAgainst(sX, sY, r, lcas[0]))
    && (r.Both? && sX[0].v == sY[0].v ==> r == Both(NodeOf(sX[0]), NodeOf(sY[0])))
    && (r.Both? && sX[0].v != sY[0].v ==>
          && (RootIsAncestor(sX, sY) ==> r.y == NodeOf(sY[0]) && Recreates(r.x, r.y, sX[0].id))
          && (RootIsAncestor(sY, sX) ==> r.x == NodeOf(sX[0]) && Recreates(r.y, r.x, sY[0].id))
          && (!RootIsAncestor(sX, sY) && !RootIsAncestor(sY, sX) ==>
                r.x.v == None && r.y.v == None && r.x.pa == r.y.pa == [sX[0].v, sY[0].v])
          && r.x.v == r.y.v && r.x.pa == r.y.pa && r.x.id == sX[0].id && r.y.id == sY[0].id)
  }

  /** The roots are merged against what each stream holds for the ancestor. */
  ghost predicate MergedAgainst(sX: seq<Item>, sY: seq<Item>, r: MergeOutcome, lca: Version)
    requires sX != [] && sY != []
  {
    exists lx, ly :: (lx in sX && ly in sY && lx.v == lca && ly.v == lca
                      && IsOutcome(r, NodeOf(sX[0]), NodeOf(sY[0]), NodeOf(lx), NodeOf(ly)))
  }

  method MergeStreams(sX: seq<Item>, sY: seq<Item>, schedule: seq<bool>) returns (r: MergeOutcome, lcas: seq<Version>)
    requires Streams(sX, sY)
    requires Turns(schedule, true) == |sX| && Turns(schedule, false) == |sY|
    ensures Settles(sX, sY, r, lcas)
  {
    hide Streams, IsMeet, DescendantsFirst, Settles, IsOutcome;
    var lcaX, lcaY;
    lcas, lcaX, lcaY := FindLCAs(sX, sY, schedule);
    NotOne(sX, sY, lcas);
    if |lcas| < 1 {
      return NoLca, lcas;
    }
    assert lcas[0] in Elems(lcas);
    if |lcas| > 1 {
      return SeveralLcas, lcas;
    }
    OneLca(sX, sY, lcas);
    r := DoMerge(NodeOf(sX[0]), NodeOf(sY[0]), NodeOf(lcaX[lcas[0]]), NodeOf(lcaY[lcas[0]]));
    MergedSettles(sX, sY, lcas, lcaX[lcas[0]], lcaY[lcas[0]], r);
  }

  lemma NotOne(sX: seq<Item>, sY: seq<Item>, lcas: seq<Version>)
    requires Streams(sX, sY) && IsMeet(sX, sY, Elems(lcas)) && DescendantsFirst(sX, lcas)
    ensures |lcas| == 0 ==> Settles(sX, sY, NoLca, lcas)
    ensures |lcas| > 1 ==> Settles(sX, sY, SeveralLcas, lcas)
  {
    hide Streams, IsMeet, DescendantsFirst, Common;
    MeetEmpty(sX, sY, Elems(lcas));
    if |lcas| > 0 {
      assert lcas[0] in Elems(lcas);
    } else {
      assert Elems(lcas) == {};
    }
  }

  lemma OneLca(sX: seq<Item>, sY: seq<Item>, lcas: seq<Version>)
    requires Streams(sX, sY) && IsMeet(sX, sY, Elems(lcas)) && |lcas| == 1
    ensures sX != [] && sY != [] && lcas[0] in Elems(lcas) && exists v :: Common(sX, sY, v)
    ensures lcas[0] == sX[0].v <==> RootIsAncestor(sX, sY)
    ensures lcas[0] == sY[0].v <==> RootIsAncestor(sY, sX)
    ensures RootIsAncestor(sX, sY) && RootIsAncestor(sY, sX) ==> sX[0].v == sY[0].v
  {
    hide Streams, IsMeet;
    assert Elems(lcas) == {lcas[0]};
    MeetIsCommon(sX, sY, Elems(lcas), lcas[0]);
    SingleLcaIsRoot(sX, sY, lcas[0]);
  }

  lemma MergedSettles(sX: seq<Item>, sY: seq<Item>, lcas: seq<Version>, lx: Item, ly: Item, r: MergeOutcome)
    requires Streams(sX, sY) && IsMeet(sX, sY, Elems(lcas)) && DescendantsFirst(sX, lcas) && |lcas| == 1
    requires lx in sX && ly in sY && lx.v == lcas[0] && ly.v == lcas[0] && sX != [] && sY != []
    requires IsOutcome(r, NodeOf(sX[0]), NodeOf(sY[0]), NodeOf(lx), NodeOf(ly))
    ensures Settles(sX, sY, r, lcas)
  {
    hide Streams, IsMeet, DescendantsFirst, Common, RootIsAncestor, IsMerge, ConflictsAre, NoConflict;
    OneLca(sX, sY, lcas);
  }

  /** When a root is an ancestor of the other, it is all that is reported. */
  lemma OnlyTheRoot(s: seq<Item>, t: seq<Item>, R: set<Version>)
    requires Streams(s, t) && RootIsAncestor(s, t) && IsMeet(s, t, R)
    ensures R == {s[0].v}
  {
    RootIsLowest(s, t);
    LowestReported(s, t, R, s[0].v);
    forall u | u in R ensures u == s[0].v {
      assert Meets(s, t, R, u);
      ReachEnds(s, s[0].v, R - {u}, u);
    }
  }
}
