/** How an item that arrives from a remote relates to the local head, counting merges that still wait. */
module Arrivals {
  import opened Items
  import opened Dag
  import opened Keys
  import opened Log
  import opened Stream
  import opened Meet
  import opened Merge
  import ThreeWay
  import opened Heads
  import opened Queue

  /** A queued item fits the keys, has no number yet and is not its own parent. */
  ghost predicate EntryOk(c: Conf, e: Entry) {
    Fitting(c, e.n) && e.n.i.None? && e.n.v !in e.n.pa
  }

  ghost predicate QueueOk(c: Conf, t: Entries) {
    forall k :: 0 <= k < |t| ==> EntryOk(c, t[k])
  }

  /** The queued items of an id, newest first. */
  function Pending(t: Entries, id: Id): seq<Item> {
    if t == [] then [] else
      var last := t[|t| - 1];
      (if Of(last, id) then [last.n] else []) + Pending(t[..|t| - 1], id)
  }

  lemma {:induction false} PendingAre(t: Entries, id: Id, it: Item)
    ensures it in Pending(t, id) <==> exists k :: 0 <= k < |t| && t[k].n == it && Of(t[k], id)
  {
    if t != [] {
      var n := |t| - 1;
      PendingAre(t[..n], id, it);
      assert forall k :: 0 <= k < n ==> t[..n][k] == t[k];
    }
  }

  /** What the merge reads on the remote side: the history of the item, newest first. */
  ghost function RemoteSide(rlog: seq<Item>, it: Item): seq<Item> {
    Wanted(rlog, Backward(it.id, Some(it.v)))
  }

  /** And on the local side: the waiting items of the id before the stored ones. */
  ghost function LocalSide(log: seq<Item>, t: Entries, id: Id): seq<Item> {
    Pending(t, id) + Wanted(log, Backward(id, None))
  }

  /** Scan a queue from the end for the newest waiting item of an id. */
  method FindTmpHead(t: Entries, id: Id) returns (head: Option<Version>)
    ensures head.None? <==> Pending(t, id) == []
    ensures head.Some? ==> head.value == Pending(t, id)[0].v
  {
    var i := |t|;
    assert t[..i] == t;
    while i > 0
      invariant i <= |t| && Pending(t, id) == Pending(t[..i], id)
    {
      assert t[..i][..i - 1] == t[..i - 1];
      i := i - 1;
      if Of(t[i], id) {
        return Some(t[i].n.v);
      }
    }
    return None;
  }

  /** The remote's item as the merge stream hands it on. */
  ghost predicate FromRemote(rname: Name, rlog: seq<Item>, it: Item) {
    it.pe == Some(rname) && exists k :: 0 <= k < |rlog| && it == rlog[k].(i := None)
  }

  /** The history of an arriving item starts with it, and the item can be queued. */
  lemma RemoteStarts(c: Conf, rc: Conf, rlog: seq<Item>, it: Item)
    requires WF(rc, rlog) && rc.vSize == c.vSize && FromRemote(rc.name, rlog, it)
    ensures var sX := RemoteSide(rlog, it); sX != [] && sX[0].v == it.v && sX[0].id == it.id
    ensures EntryOk(c, Alone(it)) && HasOf(rlog, it.id, it.v) && it.pe == Some(rc.name)
  {
    var k :| 0 <= k < |rlog| && it == rlog[k].(i := None);
    assert HasOf(rlog, it.id, it.v);
    SuppliesSearch(rc, rlog, it.id, Some(it.v));
    assert Fitting(rc, rlog[k]);
    OwnParent(rc, rlog, k);
  }

  lemma OwnParent(c: Conf, log: seq<Item>, k: nat)
    requires WF(c, log) && k < |log|
    ensures log[k].v !in log[k].pa
  {
    if log[k].v in log[k].pa {
      var q := ParentBefore(c, log, k, log[k].v);
    }
  }

  /** The local side starts with the latest head: the newest waiting item, or else the local head. */
  lemma LocalStarts(c: Conf, log: seq<Item>, t: Entries, id: Id, head: Option<Version>)
    requires WF(c, log) && OneHead(log) && QueueOk(c, t) && Pending(t, id) == [] ==> IsHeadOf(log, id, head)
    requires WF(c, log) && OneHead(log) && QueueOk(c, t)
    requires Pending(t, id) != [] ==> head == Some(Pending(t, id)[0].v)
    ensures var sY := LocalSide(log, t, id);
      && (sY == [] <==> head.None?)
      && (head.Some? ==> sY != [] && sY[0].v == head.value && sY[0].id == id && |head.value.bytes| == c.vSize
                         && (sY[0].i.Some? <==> Pending(t, id) == []))
      && (Pending(t, id) == [] ==> forall k :: 0 <= k < |sY| ==> sY[k].id == id && sY[k] in log)
  {
    hide OneHead, Numbered, Linked, Distinct;
    var p := Pending(t, id);
    if p == [] {
      NewestFirst(c, log, id, head);
      assert LocalSide(log, t, id) == Wanted(log, Backward(id, None));
      if head.Some? {
        var first := Wanted(log, Backward(id, None))[0];
        assert first in log;
        StoredItem(c, log, first);
      }
    } else {
      assert p[0] in p;
      PendingAre(t, id, p[0]);
    }
  }

  lemma StoredItem(c: Conf, log: seq<Item>, it: Item)
    requires WF(c, log) && it in log
    ensures Fitting(c, it) && it.i.Some?
  {
  }

  /** An arriving item that is an ancestor of the local head, or the head itself, is stored already. */
  lemma AlreadyStored(sX: seq<Item>, sY: seq<Item>, log: seq<Item>, it: Item)
    requires RootIsAncestor(sX, sY) && sX[0].v == it.v
    requires forall k :: 0 <= k < |sY| ==> sY[k].id == it.id && sY[k] in log
    ensures HasOf(log, it.id, it.v)
  {
    var k :| 0 <= k < |sY| && sY[k].v == it.v;
    assert sY[k] in log;
  }

  // ---- the outcome of an arrival ----

  datatype Arrival = Fresh | Forward | Merged | Conflicting | Repeat | Failed

  /** Nothing of the id yet, or a merge of it follows: the item is queued as it is. */
  function Alone(it: Item): (e: Entry)
    ensures e.n == it && e.l == None && e.lcas == [] && e.c == None
  {
    Entry(it, None, [], None)
  }

  /** What is made of a merge result: an item with a version and a number is stored already. */
  function Sort(o: MergeOutcome, lcas: seq<Version>, it: Item, head: Version, hash: Version): (Arrival, Entries) {
    match o
    case MergeConflict(keys) => (Conflicting, [Entry(it, Some(head), lcas, Some(keys))])
    case Both(x, y) =>
      if y.v.None? then
        var merged := Item(x.id, hash, x.pa, x.d, false, None, None, x.b);
        (Merged, [Alone(it), Entry(merged, Some(head), lcas, None)])
      else if y.i.None? then (Forward, [Entry(it, Some(head), lcas, None)])
      else (Repeat, [])
    case _ => (Failed, [])
  }

  /** The two histories have one ancestor to merge against, and these are its items in either. */
  ghost predicate Ancestor(sX: seq<Item>, sY: seq<Item>, lca: Version, lx: Item, ly: Item) {
    IsMeet(sX, sY, {lca}) && lx in sX && ly in sY && lx.v == lca && ly.v == lca
  }

  /** The two documents can be merged without conflict against what either history holds for the ancestor. */
  ghost predicate CanJoin(x: Item, y: Item, lx: Item, ly: Item) {
    NoConflict(BodyOf(x.b), BodyOf(y.b), BodyOf(lx.b), BodyOf(ly.b))
  }

  /** Without a document for the ancestor there is nothing to merge against. */
  ghost predicate Baseless(x: Item, y: Item, lx: Item, ly: Item) {
    lx.b.None? || (ly.b.None? && CanJoin(x, y, lx, lx))
  }

  /** What becomes of an item `x` and the latest head `y`, given how their histories relate. */
  ghost predicate Decided(sX: seq<Item>, sY: seq<Item>, lx: Item, ly: Item, r: Arrival)
    requires sX != [] && sY != []
  {
    var x, y := sX[0], sY[0];
    if RootIsAncestor(sX, sY) then
      r == if x.v != y.v && !CanJoin(x, y, lx, ly) then Conflicting else if y.i.Some? then Repeat else Forward
    else if RootIsAncestor(sY, sX) then
      r == if CanJoin(y, x, ly, lx) then Forward else Conflicting
    else
      && (r == Failed <==> Baseless(x, y, lx, ly))
      && (r == Merged <==> lx.b.Some? && ly.b.Some? && CanJoin(x, y, lx, ly) && CanJoin(y, x, ly, lx))
      && (r == Conflicting <==> r != Failed && r != Merged)
  }

  /** The conflicts reported, found in the first direction in which there are any. */
  ghost predicate ConflictKeys(sX: seq<Item>, sY: seq<Item>, lx: Item, ly: Item, keys: seq<string>)
    requires sX != [] && sY != []
  {
    var x, y, a, b := BodyOf(sX[0].b), BodyOf(sY[0].b), BodyOf(lx.b), BodyOf(ly.b);
    if RootIsAncestor(sX, sY) then ConflictsAre(keys, x, y, a, b)
    else if RootIsAncestor(sY, sX) then ConflictsAre(keys, y, x, b, a)
    else if ly.b.None? then ConflictsAre(keys, x, y, a, a)
    else if !NoConflict(x, y, a, b) then ConflictsAre(keys, x, y, a, b)
    else ConflictsAre(keys, y, x, b, a)
  }

  /** The entry names the latest head and the one ancestor it was merged against. */
  ghost predicate Against(sX: seq<Item>, sY: seq<Item>, e: Entry)
    requires sX != [] && sY != []
  {
    |e.lcas| == 1 && e.l == Some(sY[0].v) && IsMeet(sX, sY, Elems(e.lcas))
  }

  /** The document is the merge of the two first items against what each stream holds for the ancestor. */
  ghost predicate MergedBody(sX: seq<Item>, sY: seq<Item>, lx: Item, ly: Item, b: Option<Body>)
    requires sX != [] && sY != []
  {
    IsMerge(b, BodyOf(sX[0].b), BodyOf(sY[0].b), BodyOf(lx.b), BodyOf(ly.b))
  }

  /** The item itself, made for no head. */
  ghost predicate Plain(e: Entry, it: Item) {
    e.n == it && e.l == None && e.lcas == [] && e.c == None
  }

  /** What is queued, told by the outcome. */
  ghost predicate Queues(sX: seq<Item>, sY: seq<Item>, it: Item, hash: Version, r: Arrival, queued: Entries)
    requires sX != [] && (sY == [] <==> r == Fresh)
  {
    match r
    case Fresh => |queued| == 1 && Plain(queued[0], it)
    case Repeat => queued == [] && RootIsAncestor(sX, sY) && sY[0].i.Some?
    case Forward =>
      && |queued| == 1 && queued[0].n == it && queued[0].c == None && Against(sX, sY, queued[0])
      && if RootIsAncestor(sX, sY) then sY[0].i.None? else RootIsAncestor(sY, sX)
    case Merged =>
      && !RootIsAncestor(sX, sY) && !RootIsAncestor(sY, sX)
      && |queued| == 2 && Plain(queued[0], it) && queued[1].c == None && Against(sX, sY, queued[1])
      && queued[1].n == Item(it.id, hash, [sX[0].v, sY[0].v], sX[0].d && sY[0].d, false, None, None, queued[1].n.b)
    case Conflicting =>
      && |queued| == 1 && queued[0].n == it && queued[0].c.Some? && Against(sX, sY, queued[0])
    case Failed => queued == [] && !RootIsAncestor(sX, sY) && !RootIsAncestor(sY, sX)
  }

  /** The merged document, or the keys in conflict. */
  ghost predicate Told(sX: seq<Item>, sY: seq<Item>, lx: Item, ly: Item, r: Arrival, queued: Entries)
    requires sX != [] && sY != []
  {
    && (r == Merged ==> |queued| == 2 && MergedBody(sX, sY, lx, ly, queued[1].n.b))
    && (r == Conflicting ==> |queued| == 1 && queued[0].c.Some? && ConflictKeys(sX, sY, lx, ly, queued[0].c.value))
  }

  /**
   * How an arrival is classified, in terms of the two histories and their documents: new to the local
   * side, stored already, a fast-forward, a genuine merge, a conflict, or impossible to merge; each
   * exactly when. It is impossible in particular when there is no ancestor or more than one.
   */
  ghost predicate Classified(sX: seq<Item>, sY: seq<Item>, it: Item, hash: Version, r: Arrival, queued: Entries)
    requires sX != []
  {
    && (sY == [] <==> r == Fresh) && Queues(sX, sY, it, hash, r, queued)
    && (sY != [] ==>
          && (forall lca, lx, ly :: Ancestor(sX, sY, lca, lx, ly) ==>
                Decided(sX, sY, lx, ly, r) && Told(sX, sY, lx, ly, r, queued))
          && ((forall lca, lx, ly :: !Ancestor(sX, sY, lca, lx, ly)) ==> r == Failed))
  }

  lemma NothingYet(sX: seq<Item>, sY: seq<Item>, it: Item, hash: Version)
    requires sX != [] && sY == []
    ensures Classified(sX, sY, it, hash, Fresh, [Alone(it)])
  {
  }

  lemma SortClassifies(sX: seq<Item>, sY: seq<Item>, it: Item, hash: Version, o: MergeOutcome, lcas: seq<Version>)
    requires sX != [] && sY != [] && sX[0].id == it.id && Streams(sX, sY) && Settles(sX, sY, o, lcas)
    ensures Classified(sX, sY, it, hash, Sort(o, lcas, it, sY[0].v, hash).0, Sort(o, lcas, it, sY[0].v, hash).1)
  {
    hide Streams, IsMeet, DescendantsFirst, Common, RootIsAncestor, MergedAgainst;
    hide Decided, Queues, Told, Ancestor, Sort, IsOutcome;
    var r, queued := Sort(o, lcas, it, sY[0].v, hash).0, Sort(o, lcas, it, sY[0].v, hash).1;
    RootsAlone(sX, sY, lcas);
    if |lcas| == 1 {
      var lx, ly := MergedItems(sX, sY, o, lcas[0]);
      if sX[0].v == sY[0].v {
        SameRoot(sX, sY);
      }
      OneSort(sX, sY, it, hash, o, lcas, lx, ly);
      forall lca, lx', ly' | Ancestor(sX, sY, lca, lx', ly') ensures lca == lcas[0] && lx' == lx && ly' == ly {
        OneAncestor(sX, sY, lcas[0], lx, ly, lca, lx', ly');
      }
    } else {
      NotOneSort(sX, sY, it, hash, o, lcas);
    }
  }

  /** If a root is an ancestor of the other, it is the one ancestor reported. */
  lemma RootsAlone(sX: seq<Item>, sY: seq<Item>, lcas: seq<Version>)
    requires Streams(sX, sY) && IsMeet(sX, sY, Elems(lcas)) && DescendantsFirst(sX, lcas)
    ensures RootIsAncestor(sX, sY) ==> lcas == [sX[0].v]
    ensures RootIsAncestor(sY, sX) ==> lcas == [sY[0].v]
    ensures |lcas| == 1 && sX != [] && sY != [] ==>
              (lcas[0] == sX[0].v ==> RootIsAncestor(sX, sY)) && (lcas[0] == sY[0].v ==> RootIsAncestor(sY, sX))
  {
    hide Streams, IsMeet, DescendantsFirst;
    if RootIsAncestor(sX, sY) {
      OnlyTheRoot(sX, sY, Elems(lcas));
      OneElem(sX, lcas, sX[0].v);
    }
    if RootIsAncestor(sY, sX) {
      OtherWay(sX, sY, Elems(lcas));
      OneElem(sX, lcas, sY[0].v);
    }
    if |lcas| == 1 {
      OneLca(sX, sY, lcas);
    }
  }

  /** With one ancestor: the outcome is decided by the documents, and so is what is queued. */
  lemma OneSort(sX: seq<Item>, sY: seq<Item>, it: Item, hash: Version, o: MergeOutcome, lcas: seq<Version>,
                lx: Item, ly: Item)
    requires sX != [] && sY != [] && sX[0].id == it.id && |lcas| == 1 && IsMeet(sX, sY, Elems(lcas))
    requires lx in sX && ly in sY && lx.v == lcas[0] && ly.v == lcas[0]
    requires IsOutcome(o, NodeOf(sX[0]), NodeOf(sY[0]), NodeOf(lx), NodeOf(ly))
    requires (lcas[0] == sX[0].v <==> RootIsAncestor(sX, sY)) && (lcas[0] == sY[0].v <==> RootIsAncestor(sY, sX))
    requires sX[0].v == sY[0].v ==> RootIsAncestor(sX, sY)
    ensures var s := Sort(o, lcas, it, sY[0].v, hash);
      && Ancestor(sX, sY, lcas[0], lx, ly) && s.0 != Fresh && Queues(sX, sY, it, hash, s.0, s.1)
      && Decided(sX, sY, lx, ly, s.0) && Told(sX, sY, lx, ly, s.0, s.1)
  {
    hide IsMeet, RootIsAncestor, NoConflict, IsMerge, ConflictsAre, IsOutcome, Sort, Decided, Told, Queues;
    assert Elems(lcas) == {lcas[0]};
    if lcas[0] == sX[0].v || lcas[0] == sY[0].v {
      ForwardSort(sX, sY, it, hash, o, lcas, lx, ly);
    } else {
      GenuineSort(sX, sY, it, hash, o, lcas, lx, ly);
    }
  }

  /** So if the ancestor is one of the two roots. */
  lemma ForwardSort(sX: seq<Item>, sY: seq<Item>, it: Item, hash: Version, o: MergeOutcome, lcas: seq<Version>,
                    lx: Item, ly: Item)
    requires sX != [] && sY != [] && sX[0].id == it.id && |lcas| == 1 && IsMeet(sX, sY, Elems(lcas))
    requires lx.v == lcas[0] && ly.v == lcas[0]
    requires IsOutcome(o, NodeOf(sX[0]), NodeOf(sY[0]), NodeOf(lx), NodeOf(ly))
    requires (lcas[0] == sX[0].v <==> RootIsAncestor(sX, sY)) && (lcas[0] == sY[0].v <==> RootIsAncestor(sY, sX))
    requires lcas[0] == sX[0].v || lcas[0] == sY[0].v
    requires sX[0].v == sY[0].v ==> RootIsAncestor(sX, sY)
    ensures var s := Sort(o, lcas, it, sY[0].v, hash);
      && s.0 != Fresh && Queues(sX, sY, it, hash, s.0, s.1)
      && Decided(sX, sY, lx, ly, s.0) && Told(sX, sY, lx, ly, s.0, s.1)
  {
    hide IsMeet, RootIsAncestor, NoConflict, IsMerge, ConflictsAre, IsGenuine;
  }

  /** And if it is neither. */
  lemma GenuineSort(sX: seq<Item>, sY: seq<Item>, it: Item, hash: Version, o: MergeOutcome, lcas: seq<Version>,
                    lx: Item, ly: Item)
    requires sX != [] && sY != [] && sX[0].id == it.id && |lcas| == 1 && IsMeet(sX, sY, Elems(lcas))
    requires lx.v == lcas[0] && ly.v == lcas[0] && lcas[0] != sX[0].v && lcas[0] != sY[0].v
    requires IsOutcome(o, NodeOf(sX[0]), NodeOf(sY[0]), NodeOf(lx), NodeOf(ly))
    requires !RootIsAncestor(sX, sY) && !RootIsAncestor(sY, sX) && sX[0].v != sY[0].v
    ensures var s := Sort(o, lcas, it, sY[0].v, hash);
      && s.0 != Fresh && Queues(sX, sY, it, hash, s.0, s.1)
      && Decided(sX, sY, lx, ly, s.0) && Told(sX, sY, lx, ly, s.0, s.1)
  {
    hide IsMeet, RootIsAncestor, NoConflict, IsMerge, ConflictsAre, IsForward;
  }

  /** Without one, nothing can be merged. */
  lemma NotOneSort(sX: seq<Item>, sY: seq<Item>, it: Item, hash: Version, o: MergeOutcome, lcas: seq<Version>)
    requires sX != [] && sY != [] && Streams(sX, sY) && Settles(sX, sY, o, lcas) && |lcas| != 1
    ensures Classified(sX, sY, it, hash, Sort(o, lcas, it, sY[0].v, hash).0, Sort(o, lcas, it, sY[0].v, hash).1)
  {
    hide Streams, IsMeet, DescendantsFirst, Common, MergedAgainst, RootIsAncestor, Decided, Told;
    RootsAlone(sX, sY, lcas);
    forall lca, lx, ly ensures !Ancestor(sX, sY, lca, lx, ly) {
      if Ancestor(sX, sY, lca, lx, ly) {
        MeetUnique(sX, sY, Elems(lcas), {lca});
        OneElem(sX, lcas, lca);
      }
    }
  }

  lemma MergedItems(sX: seq<Item>, sY: seq<Item>, o: MergeOutcome, lca: Version) returns (lx: Item, ly: Item)
    requires sX != [] && sY != [] && MergedAgainst(sX, sY, o, lca)
    ensures lx in sX && ly in sY && lx.v == lca && ly.v == lca
    ensures IsOutcome(o, NodeOf(sX[0]), NodeOf(sY[0]), NodeOf(lx), NodeOf(ly))
  {
    hide IsOutcome;
    lx, ly :| lx in sX && ly in sY && lx.v == lca && ly.v == lca
              && IsOutcome(o, NodeOf(sX[0]), NodeOf(sY[0]), NodeOf(lx), NodeOf(ly));
  }

  /** There is one ancestor at most, and one item for it in either history. */
  lemma OneAncestor(sX: seq<Item>, sY: seq<Item>, lca: Version, lx: Item, ly: Item, lca': Version, lx': Item, ly': Item)
    requires Streams(sX, sY) && Ancestor(sX, sY, lca, lx, ly) && Ancestor(sX, sY, lca', lx', ly')
    ensures lca == lca' && lx == lx' && ly == ly'
  {
    hide IsMeet, AncestryAgrees, Sorted;
    MeetUnique(sX, sY, {lca}, {lca'});
    assert lca in {lca'};
    var i, j :| 0 <= i < |sX| && sX[i] == lx && 0 <= j < |sX| && sX[j] == lx';
    var k, m :| 0 <= k < |sY| && sY[k] == ly && 0 <= m < |sY| && sY[m] == ly';
  }

  lemma OtherWay(sX: seq<Item>, sY: seq<Item>, R: set<Version>)
    requires Streams(sX, sY) && RootIsAncestor(sY, sX) && IsMeet(sX, sY, R)
    ensures R == {sY[0].v}
  {
    AgreesSym(sX, sY);
    MeetSym(sX, sY, R);
    OnlyTheRoot(sY, sX, R);
  }

  lemma SameRoot(s: seq<Item>, t: seq<Item>)
    requires s != [] && t != [] && s[0].v == t[0].v
    ensures RootIsAncestor(s, t) && RootIsAncestor(t, s)
  {
    assert PathFrom(t, [t[0].v], t[0].v, t[0].v) && PathFrom(s, [s[0].v], s[0].v, s[0].v);
    assert Has(t, s[0].v) && Has(s, t[0].v);
  }

  /** A list without repetitions that holds one version only. */
  lemma OneElem(s: seq<Item>, lcas: seq<Version>, v: Version)
    requires DescendantsFirst(s, lcas) && Elems(lcas) == {v}
    ensures lcas == [v]
  {
    assert v in Elems(lcas);
    assert lcas[0] in Elems(lcas);
    assert |lcas| > 1 ==> lcas[0] != lcas[1];
    assert v in Elems(lcas);
    var j :| 0 <= j < |lcas| && lcas[j] == v;
    forall k | 0 <= k < |lcas| ensures lcas[k] == v {
      assert lcas[k] in Elems(lcas);
    }
  }

  // ---- conflicts ----

  /** Both trees hold the same documents. */
  ghost predicate SameBodies(sX: seq<Item>, sY: seq<Item>) {
    forall i, j :: 0 <= i < |sX| && 0 <= j < |sY| && sX[i].v == sY[j].v ==> sX[i].b == sY[j].b
  }

  /** As long as both trees hold the same documents, only histories that have parted are in conflict. */
  lemma ConflictsHaveParted(sX: seq<Item>, sY: seq<Item>, it: Item, hash: Version, queued: Entries)
    requires Streams(sX, sY) && SameBodies(sX, sY) && sX != [] && Classified(sX, sY, it, hash, Conflicting, queued)
    ensures !RootIsAncestor(sX, sY) && !RootIsAncestor(sY, sX)
  {
    hide Streams, IsMeet, RootIsAncestor, SameBodies, Told, CanJoin, Common;
    var lca := queued[0].lcas[0];
    assert Elems(queued[0].lcas) == {lca};
    MeetIsCommon(sX, sY, {lca}, lca);
    var lx, ly := ItemsOf(sX, sY, lca);
    assert Ancestor(sX, sY, lca, lx, ly) && Decided(sX, sY, lx, ly, Conflicting);
    if RootIsAncestor(sX, sY) {
      OnlyTheRoot(sX, sY, {lca});
      assert lca in {sX[0].v};
      RootJoins(sX, sY, lx, ly);
    } else if RootIsAncestor(sY, sX) {
      OtherWay(sX, sY, {lca});
      assert lca in {sY[0].v};
      RootJoins(sX, sY, lx, ly);
    }
  }

  lemma ItemsOf(sX: seq<Item>, sY: seq<Item>, v: Version) returns (lx: Item, ly: Item)
    requires Common(sX, sY, v)
    ensures lx in sX && ly in sY && lx.v == v && ly.v == v
  {
    hide Anc;
    var i, j :| 0 <= i < |sX| && sX[i].v == v && 0 <= j < |sY| && sY[j].v == v;
    lx, ly := sX[i], sY[j];
  }

  /** A document that is its own ancestor is in conflict with nothing. */
  lemma RootJoins(sX: seq<Item>, sY: seq<Item>, lx: Item, ly: Item)
    requires Streams(sX, sY) && SameBodies(sX, sY) && sX != [] && sY != [] && lx in sX && ly in sY && lx.v == ly.v
    ensures lx.v == sX[0].v ==> CanJoin(sX[0], sY[0], lx, ly)
    ensures lx.v == sY[0].v ==> CanJoin(sY[0], sX[0], ly, lx)
  {
    hide Sorted, AncestryAgrees, ThreeWay.OutcomeOf;
    var i :| 0 <= i < |sX| && sX[i] == lx;
    var j :| 0 <= j < |sY| && sY[j] == ly;
    var x, y, l := BodyOf(sX[0].b), BodyOf(sY[0].b), BodyOf(lx.b);
    forall k ensures x == l ==> ThreeWay.OutcomeOf(x, y, l, l, k).Value?
             ensures y == l ==> ThreeWay.OutcomeOf(y, x, l, l, k).Value? {
      ThreeWay.UnchangedSide(x, y, l, k);
      ThreeWay.UnchangedSide(y, x, l, k);
    }
  }

  // ---- what a queued fast-forward is based on ----

  lemma MorePaths(s: seq<Item>, t: seq<Item>, a: Version, u: Version)
    requires Anc(s, a, u) && forall k :: 0 <= k < |s| ==> s[k] in t
    ensures Anc(t, a, u)
  {
    var ps :| PathFrom(s, ps, a, u);
    forall k | 0 < k < |ps| ensures Parent(t, ps[k - 1], ps[k]) {
      assert Parent(s, ps[k - 1], ps[k]);
      var i :| 0 <= i < |s| && s[i].v == ps[k - 1] && ps[k] in s[i].pa;
      assert s[i] in t;
    }
    assert PathFrom(t, ps, a, u);
  }

  /** The head is an ancestor of the queued item in the remote tree. */
  ghost predicate Forwards(rlog: seq<Item>, n: Item, head: Version) {
    && Has(rlog, head) && n.v != head && Anc(rlog, n.v, head)
    && exists k :: 0 <= k < |rlog| && rlog[k].v == n.v && rlog[k].pa == n.pa
  }

  /** A fast-forward, once queued, stays one however far the remote tree has grown since. */
  lemma QueuedForwards(rc: Conf, rlog: seq<Item>, rlog': seq<Item>, sY: seq<Item>, it: Item)
    requires WF(rc, rlog) && FromRemote(rc.name, rlog, it) && rlog <= rlog'
    requires RootIsAncestor(sY, RemoteSide(rlog, it)) && sY[0].v != it.v
    ensures Forwards(rlog', it, sY[0].v)
  {
    hide WF, Wanted, Topological, Closed, EntryOk, HasOf;
    var sX := RemoteSide(rlog, it);
    RemoteStarts(rc, rc, rlog, it);
    SuppliesSearch(rc, rlog, it.id, Some(it.v));
    forall k | 0 <= k < |sX| ensures sX[k] in rlog' {
      assert sX[k] in rlog;
      var j :| 0 <= j < |rlog| && rlog[j] == sX[k];
      assert rlog'[j] == sX[k];
    }
    MorePaths(sX, rlog', it.v, sY[0].v);
    var j :| 0 <= j < |sX| && sX[j].v == sY[0].v;
    assert sX[j] in rlog';
    var k :| 0 <= k < |rlog| && it == rlog[k].(i := None);
    assert rlog'[k] == rlog[k];
  }
}
