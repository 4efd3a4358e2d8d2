/**
 * The local tree and its discipline of one head per id: new local versions build on the head,
 * remote items wait in a queue, and confirmations move them into the local tree.
 */
module LocalWrite {
  import opened Items
  import opened Bytes
  import opened Dag
  import opened Keys
  import opened Log
  import opened Index
  import opened Tree
  import opened Meet
  import opened Queue
  import opened Heads
  import opened Arrivals
  import opened Merge
  import opened FindLcas
  import opened Stream

  /** What a client sends: a new local document, or a confirmation of a merge. */
  datatype Draft = Draft(id: Id, v: Version, d: bool, b: Option<Body>, namesParents: bool)

  /** What the client wrote, as a child of the head and of nothing else. */
  ghost predicate Carries(n: Item, item: Draft, head: Option<Version>) {
    && n.id == item.id && n.v == item.v && n.d == item.d && n.b == item.b
    && n.pa == (if head.Some? then [head.value] else []) && !n.c && n.pe.None?
  }

  /** The version a draft becomes on top of a head. */
  function NewVersion(item: Draft, head: Option<Version>): (n: Item)
    ensures Carries(n, item, head) && n.i.None?
  {
    Item(item.id, item.v, if head.Some? then [head.value] else [], item.d, false, None, None, item.b)
  }

  datatype Ack = Ack(n: Item, l: Option<Version>, lcas: seq<Version>, pe: Name)

  datatype Answer = Written | Refused | Thrown

  /** Whether a confirmation still fits the head: made for it, or naming it as a parent. */
  predicate FitsHead(lhead: Option<Version>, obj: Ack) {
    lhead == obj.l || (lhead.Some? && lhead.value in obj.n.pa)
  }

  // ---- the order in which versions were made ----

  /** A version is made after its parents, whichever tree it is first stored in. */
  ghost predicate Ranked(it: Item, rank: Version -> nat) {
    forall p :: p in it.pa ==> rank(p) < rank(it.v)
  }

  ghost predicate RankOk(log: seq<Item>, rank: Version -> nat) {
    forall k :: 0 <= k < |log| ==> Ranked(log[k], rank)
  }

  lemma {:induction false} RankFalls(log: seq<Item>, rank: Version -> nat, ps: seq<Version>)
    requires RankOk(log, rank) && Path(log, ps)
    ensures if |ps| == 1 then true else rank(ps[|ps| - 1]) < rank(ps[0])
    decreases |ps|
  {
    if |ps| > 1 {
      assert Parent(log, ps[0], ps[1]);
      RankFalls(log, rank, ps[1..]);
    }
  }

  lemma AncestorsRank(log: seq<Item>, rank: Version -> nat, v: Version, u: Version)
    requires RankOk(log, rank) && Anc(log, v, u)
    ensures v == u || rank(u) < rank(v)
  {
    var ps :| PathFrom(log, ps, v, u);
    RankFalls(log, rank, ps);
  }

  /** Every item of an id is the head or one of its ancestors. */
  lemma {:induction false} BelowHead(c: Conf, log: seq<Item>, head: Version, k: nat)
    requires WF(c, log) && OneHead(log) && k < |log| && IsHeadOf(log, log[k].id, Some(head))
    ensures Anc(log, head, log[k].v)
    decreases |log| - k
  {
    hide OneHead, Fitting, Numbered;
    var v := log[k].v;
    if Childless(log, v) {
      SameHead(log, log[k].id, v, head);
      assert PathFrom(log, [v], v, v);
    } else {
      var m :| 0 <= m < |log| && v in log[m].pa;
      assert Earlier(log, m, v);
      BelowHead(c, log, head, m);
      assert PathFrom(log, [log[m].v, v], log[m].v, v) by { assert Parent(log, log[m].v, v); }
      AncTrans(log, head, log[m].v, v);
    }
  }

  /**
   * A fast-forward whose parents are all in the local tree must name the local head among them: the
   * parent through which it descends from the head is the head itself, or both were made after the other.
   */
  lemma ForwardNamesHead(c: Conf, log: seq<Item>, rlog: seq<Item>, rank: Version -> nat, n: Item, head: Version)
    requires WF(c, log) && OneHead(log) && IsHeadOf(log, n.id, Some(head))
    requires Distinct(rlog) && RankOk(log, rank) && RankOk(rlog, rank) && Forwards(rlog, n, head)
    requires forall p :: p in n.pa ==> HasOf(log, n.id, p)
    ensures head in n.pa
  {
    hide WF, OneHead, RankOk, IsHeadOf;
    AncIsReach(rlog, n.v, head);
    var p := ReachFirst(rlog, n.v, {}, head);
    var k :| 0 <= k < |rlog| && rlog[k].v == n.v && rlog[k].pa == n.pa;
    var j :| 0 <= j < |rlog| && rlog[j].v == n.v && p in rlog[j].pa;
    assert j == k;
    AncIsReach(rlog, p, head);
    AncestorsRank(rlog, rank, p, head);
    var m :| 0 <= m < |log| && log[m].id == n.id && log[m].v == p;
    BelowHead(c, log, head, m);
    AncestorsRank(log, rank, head, p);
  }

  // ---- the queue and the local tree ----

  /** An entry for the confirmed version. */
  ghost predicate FoundAt(t: Entries, n: Item, k: nat) {
    k < |t| && t[k].n.id == n.id && t[k].n.v == n.v
  }

  ghost predicate LastFoundAt(t: Entries, n: Item, k: nat) {
    FoundAt(t, n, k) && forall j: nat :: k < j ==> !FoundAt(t, n, j)
  }

  /** What becomes of the queue and the log: all that `steps` rounds of the loop took out is stored, or nothing is. */
  ghost predicate Handled(name: Name, t: Entries, id: Id, steps: nat, log: seq<Item>,
                          r: Answer, log': seq<Item>, t': Entries) {
    var taken := Loop(t, id, steps);
    && t' == taken.rest
    && r == (if taken.thrown then Thrown else if AllAcceptable(log, name, taken.items) then Written else Refused)
    && log' == if r == Written then Appended(log, taken.items) else log
  }

  /** What a confirmation does: refused without any change, or the loop's account of the queue. */
  ghost predicate ConfirmStep(name: Name, t: Entries, lhead: Option<Version>, obj: Ack, log: seq<Item>,
                              r: Answer, log': seq<Item>, t': Entries) {
    if !FitsHead(lhead, obj) || |obj.lcas| > 1 || (forall k :: !FoundAt(t, obj.n, k)) then
      r == Refused && log' == log && t' == t
    else
      forall k: nat :: LastFoundAt(t, obj.n, k) ==> Handled(name, t, obj.n.id, k + 1, log, r, log', t')
  }

  lemma Refuses(name: Name, t: Entries, lhead: Option<Version>, obj: Ack, log: seq<Item>)
    ensures !FitsHead(lhead, obj) || |obj.lcas| > 1 || (forall k :: !FoundAt(t, obj.n, k)) ==>
              ConfirmStep(name, t, lhead, obj, log, Refused, log, t)
  {
  }

  lemma Handles(name: Name, t: Entries, lhead: Option<Version>, obj: Ack, k: nat, log: seq<Item>)
    requires FitsHead(lhead, obj) && |obj.lcas| <= 1 && LastFoundAt(t, obj.n, k)
    ensures forall r, log', t' :: Handled(name, t, obj.n.id, k + 1, log, r, log', t') ==>
              ConfirmStep(name, t, lhead, obj, log, r, log', t')
  {
    hide Handled;
  }

  /**
   * What a draft does: unless it names parents or its version is known, it is stored on top of the head as
   * the client wrote it, numbered next; otherwise it is refused without any change.
   */
  ghost predicate DraftStep(lhead: Option<Version>, item: Draft, log: seq<Item>, r: Answer, log': seq<Item>) {
    if item.namesParents || Has(log, item.v) then
      r == Refused && log' == log
    else
      && r == Written && |log'| == |log| + 1 && log <= log'
      && Carries(log'[|log|], item, lhead) && log'[|log|].i == Some(LastI(log) + 1)
  }

  /** That item is the new version with its number. */
  lemma DraftIsNew(lhead: Option<Version>, item: Draft, log: seq<Item>, r: Answer, log': seq<Item>)
    requires DraftStep(lhead, item, log, r, log')
    ensures r == Written ==> log' == log + [NewVersion(item, lhead).(i := Some(LastI(log) + 1))]
  {
    hide Has, LastI;
    if r == Written {
      var n := NewVersion(item, lhead).(i := Some(LastI(log) + 1));
      var m := log'[|log|];
      assert m == n;
      assert log' == log'[..|log|] + [m];
    }
  }

  /** What the loop would take for a confirmation is a batch the local tree may be given. */
  ghost predicate Batched(c: Conf, log: seq<Item>, t: Entries, n: Item) {
    forall k: nat :: LastFoundAt(t, n, k) && !Loop(t, n.id, k + 1).thrown ==> BatchFor(c, log, Loop(t, n.id, k + 1).items)
  }

  /** It is one when the queued items of the id come parents first and are distinct. */
  lemma SortedQueueIsBatched(c: Conf, log: seq<Item>, t: Entries, n: Item)
    requires BatchOk(c, Queued(t))
    ensures Batched(c, log, t, n)
  {
    hide BatchOk, BatchFor, Loop;
    forall k: nat | LastFoundAt(t, n, k) && !Loop(t, n.id, k + 1).thrown
      ensures BatchFor(c, log, Loop(t, n.id, k + 1).items)
    {
      var at := LoopTakes(t, n.id, k + 1);
      SubBatch(c, log, Queued(t), at, Loop(t, n.id, k + 1).items);
    }
  }

  lemma SubBatch(c: Conf, log: seq<Item>, all: seq<Item>, at: seq<nat>, items: seq<Item>)
    requires BatchOk(c, all) && |at| == |items| && forall i, j :: 0 <= i < j < |at| ==> at[i] < at[j]
    requires forall j :: 0 <= j < |at| ==> at[j] < |all| && items[j] == all[at[j]]
    ensures BatchFor(c, log, items)
  {
    hide Fitting, Has;
    forall j, k | 0 <= j < |items| && 0 <= k < |items| && items[j].v in items[k].pa
      ensures j < k && items[j].id == items[k].id
    {
      assert all[at[j]].v in all[at[k]].pa;
    }
  }

  ghost function Queued(t: Entries): (s: seq<Item>)
    ensures |s| == |t| && forall j :: 0 <= j < |t| ==> s[j] == t[j].n
  {
    seq(|t|, j requires 0 <= j < |t| => t[j].n)
  }

  class MergeTree {
    const local: Tree
    var tmp: map<Name, Entries>

    constructor (local: Tree, perspectives: set<Name>)
      ensures this.local == local && tmp.Keys == perspectives && forall pe :: pe in perspectives ==> tmp[pe] == []
    {
      this.local := local;
      tmp := map pe | pe in perspectives :: [];
    }

    /** One head per id, and queues that hold items as the merge stream queues them. */
    ghost predicate Inv()
      reads this, local, local.store
    {
      local.Valid() && OneHead(local.log) && forall pe :: pe in tmp ==> QueueOk(local.c, tmp[pe])
    }

    /** The head of an id; more than one would be an error. */
    method LocalHead(id: Id) returns (ok: bool, head: Option<Version>)
      requires local.Valid() && NullFree(id.bytes)
      ensures OneHead(local.log) ==> ok
      ensures ok <==> forall v, w :: HeadOn(local.log, id, v) && HeadOn(local.log, id, w) ==> v == w
      ensures ok ==> IsHeadOf(local.log, id, head)
    {
      var heads := local.HeadVersions(id);
      if heads == {} {
        return true, None;
      }
      var v :| v in heads;
      ok, head := heads == {v}, Some(v);
      assert forall w :: w in heads <==> HeadOn(local.log, id, w);
      if !ok {
        assert heads == (heads - {v}) + {v};
        var w :| w in heads - {v};
      }
    }

    /** A new local version: its parent is the current head of the id. */
    method HandleNewLocalItem(lhead: Option<Version>, item: Draft) returns (r: Answer)
      requires Inv() && IsHeadOf(local.log, item.id, lhead)
      requires TextId(item.id.bytes) && |item.v.bytes| == local.c.vSize && LastI(local.log) + 1 < Pow256(local.c.iSize)
      modifies local, local.store
      ensures Inv() && tmp == old(tmp)
      ensures OthersKept(local.c, old(local.store.m), local.store.m)
      ensures DraftStep(lhead, item, old(local.log), r, local.log)
    {
      hide OneHead, Sound, WF, Acceptable, BatchFor, Appended, IsHeadOf, TextId, Foreign, NewVersion, DraftStep, Has;
      SoundOk(local.c, local.store.m, local.log, local.us);
      ForeignSame(local.c, local.store.m);
      DraftRefused(lhead, item, local.log);
      if item.namesParents {
        return Refused;
      }
      var newItem := NewVersion(item, lhead);
      DraftFits(local.c, local.log, item, lhead);
      ghost var log := local.log;
      var ok := local.SaveAtomic([newItem]);
      r := if ok then Written else Refused;
      DraftSaved(local.c, log, item, lhead, r, local.log);
    }

    /**
     * A confirmation: refused without any change unless it fits the current head, otherwise the
     * queued entries are written to the local tree in one batch.
     */
    method HandleMerge(lhead: Option<Version>, obj: Ack) returns (r: Answer)
      requires Inv() && obj.pe in tmp && Batched(local.c, local.log, tmp[obj.pe], obj.n)
      requires LastI(local.log) + |tmp[obj.pe]| < Pow256(local.c.iSize)
      modifies this`tmp, local, local.store
      ensures local.Valid() && obj.pe in tmp && tmp == old(tmp)[obj.pe := tmp[obj.pe]]
      ensures OthersKept(local.c, old(local.store.m), local.store.m)
      ensures forall pe :: pe in tmp ==> QueueOk(local.c, tmp[pe])
      ensures ConfirmStep(local.c.name, old(tmp[obj.pe]), lhead, obj, old(local.log), r, local.log, tmp[obj.pe])
    {
      hide OneHead, Sound, QueueOk, Loop, BatchFor, Acceptable, Appended;
      hide Foreign, News, SlotsOf, Noted, ConfirmStep, FoundAt, LastFoundAt;
      SoundOk(local.c, local.store.m, local.log, local.us);
      ForeignSame(local.c, local.store.m);
      Refuses(local.c.name, tmp[obj.pe], lhead, obj, local.log);
      if (lhead.None? && obj.l.Some?) || (lhead.Some? && obj.l.None?) {
        if !(lhead.Some? && lhead.value in obj.n.pa) { return Refused; }
      } else if lhead != obj.l {
        if !(lhead.Some? && lhead.value in obj.n.pa) { return Refused; }
      }
      if |obj.lcas| > 1 {
        return Refused;
      }
      var tmpTree := tmp[obj.pe];
      var found := FindEntry(tmpTree, obj.n);
      if found.None? {
        return Refused;
      }
      var taken := TakeConfirmed(tmpTree, obj.n.id, found.value);
      tmp := tmp[obj.pe := taken.rest];
      LoopCount(tmpTree, obj.n.id, found.value + 1);
      RestOk(local.c, tmpTree, taken.rest);
      ghost var log := local.log;
      Handles(local.c.name, tmpTree, lhead, obj, found.value, log);
      if taken.thrown {
        return Thrown;
      }
      var ok := local.SaveAtomic(taken.items);
      r := if ok then Written else Refused;
    }

    /** A new local version written through the stream: it becomes the one head of its id. */
    method WriteNew(item: Draft) returns (r: Answer)
      requires Inv()
      requires TextId(item.id.bytes) && |item.v.bytes| == local.c.vSize && LastI(local.log) + 1 < Pow256(local.c.iSize)
      modifies local, local.store
      ensures Inv() && tmp == old(tmp)
      ensures OthersKept(local.c, old(local.store.m), local.store.m)
      ensures exists head :: IsHeadOf(old(local.log), item.id, head) && DraftStep(head, item, old(local.log), r, local.log)
      ensures r == Written ==> IsHeadOf(local.log, item.id, Some(item.v))
    {
      hide OneHead, Sound, IsHeadOf, NullFree;
      ghost var log := local.log;
      var ok, lhead := LocalHead(item.id);
      r := HandleNewLocalItem(lhead, item);
      if r == Written {
        SoundOk(local.c, local.store.m, local.log, local.us);
        DraftIsNew(lhead, item, log, r, local.log);
        NewestIsNewHead(local.c, log, NewVersion(item, lhead).(i := Some(LastI(log) + 1)));
      }
    }

    /**
     * A confirmation written through the stream: refused without any change if the head is neither the
     * one it was made for nor one of its parents; and what is written leaves one head exactly when the
     * new items go on from the old one.
     */
    method WriteMerge(obj: Ack) returns (r: Answer)
      requires Inv() && obj.pe in tmp && NullFree(obj.n.id.bytes) && Batched(local.c, local.log, tmp[obj.pe], obj.n)
      requires LastI(local.log) + |tmp[obj.pe]| < Pow256(local.c.iSize)
      modifies this`tmp, local, local.store
      ensures local.Valid() && obj.pe in tmp && tmp == old(tmp)[obj.pe := tmp[obj.pe]]
      ensures OthersKept(local.c, old(local.store.m), local.store.m)
      ensures forall pe :: pe in tmp ==> QueueOk(local.c, tmp[pe])
      ensures exists head :: IsHeadOf(old(local.log), obj.n.id, head)
                && ConfirmStep(local.c.name, old(tmp[obj.pe]), head, obj, old(local.log), r, local.log, tmp[obj.pe])
                && (OneHead(local.log) <==> KeepsHead(local.c.name, old(tmp[obj.pe]), head, obj, old(local.log)))
    {
      hide OneHead, QueueOk, Sound, ConfirmStep, Batched, Foreign, NullFree, KeepsHead, IsHeadOf;
      SoundOk(local.c, local.store.m, local.log, local.us);
      ghost var log, t := local.log, tmp[obj.pe];
      var ok, lhead := LocalHead(obj.n.id);
      r := HandleMerge(lhead, obj);
      ConfirmedHeads(local.c, log, t, lhead, obj, r, local.log, tmp[obj.pe]);
    }

    /**
     * An item arrives from a remote and is merged with the latest head of its id. The local log
     * never changes; what happens instead is told by how the two histories relate.
     */
    method Arrive(rtree: Tree, ritem: Item, schedule: seq<bool>, hash: Version) returns (r: Arrival, queued: Entries)
      requires Inv() && rtree.Valid() && rtree != local
      requires rtree.c.name in tmp && rtree.c.name != local.c.name && rtree.c.vSize == local.c.vSize
      requires FromRemote(rtree.c.name, rtree.log, ritem) && LastI(local.log) + 1 < Pow256(local.c.iSize)
      requires Mergeable(RemoteSide(rtree.log, ritem), LocalSide(local.log, tmp[rtree.c.name], ritem.id), schedule)
      requires |hash.bytes| == local.c.vSize && !Has(RemoteSide(rtree.log, ritem), hash)
      requires !Has(LocalSide(local.log, tmp[rtree.c.name], ritem.id), hash)
      modifies this`tmp, local, local.store
      ensures Inv() && local.log == old(local.log) && rtree.Valid() && rtree.log == old(rtree.log)
      ensures OthersKept(local.c, old(local.store.m), local.store.m)
      ensures tmp == old(tmp[rtree.c.name := tmp[rtree.c.name] + queued])
      ensures RemoteSide(old(rtree.log), ritem) != []
      ensures Classified(RemoteSide(old(rtree.log), ritem), old(LocalSide(local.log, tmp[rtree.c.name], ritem.id)),
                         ritem, hash, r, queued)
      ensures local.us == if r == Repeat then SlotsAfter(local.c.name, old(local.us), ritem) else old(local.us)
    {
      hide OneHead, Sound, QueueOk, Mergeable, FromRemote, Foreign;
      hide Classified, RemoteSide, LocalSide, Acceptable, BatchFor, SlotsAfter;
      ghost var m, rlog := local.store.m, rtree.log;
      var pe := rtree.c.name;
      r, queued := Weigh(rtree, ritem, schedule, hash);
      SoundOk(local.c, m, local.log, local.us);
      ForeignSame(local.c, m);
      if r == Repeat {
        NoteRepeat(ritem);
        if rtree.store == local.store {
          OtherTree(local.c, rtree.c, m, local.store.m, rlog, rtree.us);
        }
      }
      tmp := tmp[pe := tmp[pe] + queued];
    }

    /** What becomes of an arriving item, before anything is changed. */
    method Weigh(rtree: Tree, ritem: Item, schedule: seq<bool>, hash: Version) returns (r: Arrival, queued: Entries)
      requires Inv() && rtree.Valid()
      requires rtree.c.name in tmp && rtree.c.name != local.c.name && rtree.c.vSize == local.c.vSize
      requires FromRemote(rtree.c.name, rtree.log, ritem)
      requires Mergeable(RemoteSide(rtree.log, ritem), LocalSide(local.log, tmp[rtree.c.name], ritem.id), schedule)
      requires |hash.bytes| == local.c.vSize && !Has(RemoteSide(rtree.log, ritem), hash)
      requires !Has(LocalSide(local.log, tmp[rtree.c.name], ritem.id), hash)
      ensures RemoteSide(rtree.log, ritem) != []
      ensures Classified(RemoteSide(rtree.log, ritem), LocalSide(local.log, tmp[rtree.c.name], ritem.id),
                         ritem, hash, r, queued)
      ensures QueueOk(local.c, tmp[rtree.c.name] + queued)
      ensures r == Repeat ==> queued == [] && Has(local.log, ritem.v) && BatchFor(local.c, local.log, [ritem])
      ensures r == Repeat ==> AllAcceptable(local.log, local.c.name, [ritem])
    {
      hide OneHead, Sound, QueueOk, EntryOk, Streams, FromRemote, Pending, Settles, Classified;
      hide RemoteSide, LocalSide, NullFree, IsHeadOf, Fitting, HasOf, Acceptable, BatchFor;
      ghost var rlog, log := rtree.log, local.log;
      var id := ritem.id;
      var t := tmp[rtree.c.name];
      SoundOk(local.c, local.store.m, local.log, local.us);
      SoundOk(rtree.c, rtree.store.m, rtree.log, rtree.us);
      RemoteStarts(local.c, rtree.c, rlog, ritem);
      EntrySizes(local.c, ritem);
      var head := FindTmpHead(t, id);
      if head.None? {
        var ok;
        ok, head := LocalHead(id);
      }
      LocalStarts(local.c, log, t, id, head);
      ghost var sX, sY := RemoteSide(rlog, ritem), LocalSide(log, t, id);
      if head.None? {
        r, queued := Fresh, [Alone(ritem)];
        NothingYet(sX, sY, ritem, hash);
      } else {
        var o, lcas := Merging(rtree, ritem, t, schedule);
        SortClassifies(sX, sY, ritem, hash, o, lcas);
        var sorted := Sort(o, lcas, ritem, head.value, hash);
        r, queued := sorted.0, sorted.1;
      }
      QueuedOk(local.c, t, sX, sY, ritem, hash, r, queued);
      if r == Repeat {
        RepeatStored(local.c, log, sX, sY, ritem, hash, queued);
      }
    }

    /** An item that is stored already only moves the slot of its perspective. */
    method NoteRepeat(ritem: Item)
      requires local.Valid() && BatchFor(local.c, local.log, [ritem]) && AllAcceptable(local.log, local.c.name, [ritem])
      requires Has(local.log, ritem.v) && LastI(local.log) + 1 < Pow256(local.c.iSize)
      modifies local, local.store
      ensures local.Valid() && local.log == old(local.log) && local.us == SlotsAfter(local.c.name, old(local.us), ritem)
      ensures OthersKept(local.c, old(local.store.m), local.store.m)
    {
      hide Sound, BatchFor, Acceptable, Appended, News, Noted, SlotsOf, SlotsAfter, Foreign;
      SoundOk(local.c, local.store.m, local.log, local.us);
      RepeatNoted(local.log, local.c.name, local.us, ritem);
      var ok := local.SaveAtomic([ritem]);
    }

    /** Merge the history of an item with the local history of its id. */
    method Merging(rtree: Tree, ritem: Item, t: Entries, schedule: seq<bool>) returns (o: MergeOutcome, lcas: seq<Version>)
      requires local.Valid() && rtree.Valid() && NullFree(ritem.id.bytes)
      requires |ritem.v.bytes| == rtree.c.vSize && Has(rtree.log, ritem.v)
      requires Mergeable(RemoteSide(rtree.log, ritem), LocalSide(local.log, t, ritem.id), schedule)
      ensures Settles(RemoteSide(rtree.log, ritem), LocalSide(local.log, t, ritem.id), o, lcas)
    {
      hide Settles, Streams, Wanted, NullFree;
      var sX := ReadStream(rtree, Backward(ritem.id, Some(ritem.v)));
      var sY := ReadStream(local, Backward(ritem.id, None));
      o, lcas := MergeStreams(sX.value, Pending(t, ritem.id) + sY.value, schedule);
    }
  }

  /** Two streams the ancestor search can take, and an order to serve them in. */
  ghost predicate Mergeable(sX: seq<Item>, sY: seq<Item>, schedule: seq<bool>) {
    Streams(sX, sY) && Turns(schedule, true) == |sX| && Turns(schedule, false) == |sY|
  }

  lemma EntrySizes(c: Conf, it: Item)
    requires EntryOk(c, Alone(it))
    ensures TextId(it.id.bytes) && |it.v.bytes| == c.vSize
  {
  }

  /** Whatever an arrival queues can wait in the queue. */
  lemma QueuedOk(c: Conf, t: Entries, sX: seq<Item>, sY: seq<Item>, it: Item, hash: Version, r: Arrival, queued: Entries)
    requires QueueOk(c, t) && EntryOk(c, Alone(it)) && sX != [] && sX[0].v == it.v && Classified(sX, sY, it, hash, r, queued)
    requires |hash.bytes| == c.vSize && !Has(sX, hash) && !Has(sY, hash) && (sY != [] ==> |sY[0].v.bytes| == c.vSize)
    ensures QueueOk(c, t + queued)
  {
    hide RootIsAncestor, Against, Decided, Told;
    forall k | 0 <= k < |queued| ensures EntryOk(c, queued[k]) {
    }
  }

  lemma RepeatStored(c: Conf, log: seq<Item>, sX: seq<Item>, sY: seq<Item>, it: Item, hash: Version, queued: Entries)
    requires EntryOk(c, Alone(it)) && it.pe.Some? && it.pe.value != c.name && sX != [] && sX[0].v == it.v
    requires Classified(sX, sY, it, hash, Repeat, queued)
    requires sY != [] && sY[0].i.Some? ==> forall k :: 0 <= k < |sY| ==> sY[k].id == it.id && sY[k] in log
    ensures BatchFor(c, log, [it]) && AllAcceptable(log, c.name, [it]) && Has(log, it.v) && queued == []
  {
    AlreadyStored(sX, sY, log, it);
  }

  /** Noting a stored item moves the slot of its perspective and nothing else. */
  lemma RepeatNoted(log: seq<Item>, name: Name, us: Slots, it: Item)
    requires Has(log, it.v)
    ensures Appended(log, [it]) == log
    ensures SlotsOf(name, Noted(log, name, us, [it]), News(log, [it])) == SlotsAfter(name, us, it)
  {
    NothingAppended(log, it);
    assert [it][..0] == [];
  }

  /** Scan the queue from the end for the entry of a version. */
  method FindEntry(t: Entries, n: Item) returns (found: Option<nat>)
    ensures found.None? ==> forall k :: !FoundAt(t, n, k)
    ensures found.Some? ==> LastFoundAt(t, n, found.value)
  {
    var i := |t|;
    while i > 0
      invariant i <= |t| && forall k :: i <= k ==> !FoundAt(t, n, k)
    {
      i := i - 1;
      if t[i].n.id == n.id && t[i].n.v == n.v {
        return Some(i);
      }
    }
    return None;
  }

  lemma {:induction false} LoopCount(t: Entries, id: Id, steps: nat)
    ensures |Loop(t, id, steps).items| <= |t|
    ensures forall e :: e in Loop(t, id, steps).rest ==> e in t
    decreases |t|
  {
    if steps > 0 && t != [] {
      if Of(t[0], id) {
        if |t| > 1 { LoopCount(t[2..], id, steps - 1); }
      } else {
        LoopCount(t[1..], id, steps - 1);
      }
    }
  }

  lemma RestOk(c: Conf, t: Entries, rest: Entries)
    requires QueueOk(c, t) && forall e :: e in rest ==> e in t
    ensures QueueOk(c, rest)
  {
    forall k | 0 <= k < |rest| ensures EntryOk(c, rest[k]) {
      assert rest[k] in t;
      var j :| 0 <= j < |t| && t[j] == rest[k];
    }
  }

  lemma DraftFits(c: Conf, log: seq<Item>, item: Draft, head: Option<Version>)
    requires WF(c, log) && IsHeadOf(log, item.id, head)
    requires TextId(item.id.bytes) && |item.v.bytes| == c.vSize
    ensures BatchFor(c, log, [NewVersion(item, head)])
  {
    hide Numbered, Linked, Distinct;
    if head.Some? {
      var k :| 0 <= k < |log| && log[k].id == item.id && log[k].v == head.value;
      assert Fitting(c, log[k]);
    }
  }

  lemma DraftRefused(head: Option<Version>, item: Draft, log: seq<Item>)
    ensures item.namesParents ==> DraftStep(head, item, log, Refused, log)
  {
  }

  lemma DraftSaved(c: Conf, log: seq<Item>, item: Draft, head: Option<Version>, r: Answer, log': seq<Item>)
    requires WF(c, log) && OneHead(log) && IsHeadOf(log, item.id, head) && BatchFor(c, log, [NewVersion(item, head)])
    requires !item.namesParents && log' == if r == Written then Appended(log, [NewVersion(item, head)]) else log
    requires r == if AllAcceptable(log, c.name, [NewVersion(item, head)]) then Written else Refused
    ensures DraftStep(head, item, log, r, log') && OneHead(log')
  {
    hide WF, OneHead, BatchFor, Appended, Has, IsHeadOf, Acceptable;
    DraftAccepted(c, log, item, head);
  }

  /** A draft is accepted unless its version is known, and takes the place of the head. */
  lemma DraftAccepted(c: Conf, log: seq<Item>, item: Draft, head: Option<Version>)
    requires WF(c, log) && OneHead(log) && IsHeadOf(log, item.id, head) && BatchFor(c, log, [NewVersion(item, head)])
    ensures var it := NewVersion(item, head);
      && (AllAcceptable(log, c.name, [it]) <==> !Has(log, item.v))
      && (!Has(log, item.v) ==> && Appended(log, [it]) == log + [it.(i := Some(LastI(log) + 1))]
                                && WF(c, Appended(log, [it])) && OneHead(Appended(log, [it])))
  {
    hide WF, OneHead, BatchFor, Appended;
    var it := NewVersion(item, head);
    HeadConnects(log, it, head);
    OnlyItem(log, c.name, it);
    if !Has(log, it.v) {
      OneAppended(c, log, it);
      OnHead(c, log, it.(i := Some(LastI(log) + 1)), head);
    }
  }

  lemma HeadConnects(log: seq<Item>, it: Item, head: Option<Version>)
    requires IsHeadOf(log, it.id, head) && it.pe.None? && it.pa == if head.Some? then [head.value] else []
    ensures Connects(log, [it], it) <==> !Has(log, it.v)
  {
    if head.Some? {
      var k :| 0 <= k < |log| && log[k].id == it.id && log[k].v == head.value;
    }
  }

  lemma OnlyItem(log: seq<Item>, name: Name, it: Item)
    ensures AllAcceptable(log, name, [it]) <==> Acceptable(log, name, [it], it)
  {
    assert [it][0] == it;
    assert AllAcceptable(log, name, [it]) ==> Acceptable(log, name, [it], [it][0]);
  }

  /** A single new item is appended as it is, numbered next. */
  lemma OneAppended(c: Conf, log: seq<Item>, it: Item)
    requires WF(c, log) && BatchFor(c, log, [it]) && Acceptable(log, c.name, [it], it) && !Has(log, it.v)
    ensures Appended(log, [it]) == log + [it.(i := Some(LastI(log) + 1))] && WF(c, Appended(log, [it]))
  {
    hide WF, BatchFor, Acceptable, News, Has, LastI;
    NewsOne(log, it);
    assert [it][..1] == [it];
    AppendWF(c, log, [it], 1);
  }

  lemma NothingAppended(log: seq<Item>, it: Item)
    requires Has(log, it.v)
    ensures Appended(log, [it]) == log
  {
    NewsOne(log, it);
  }

  // ---- when a confirmation leaves one head ----

  /** The new items the loop takes for the entry at `k` go on from the head, or nothing is written. */
  ghost predicate TakesOn(name: Name, t: Entries, lhead: Option<Version>, id: Id, k: nat, log: seq<Item>) {
    var taken := Loop(t, id, k + 1);
    taken.thrown || !AllAcceptable(log, name, taken.items) || GoesOn(News(log, taken.items), lhead)
  }

  /**
   * What can be checked before a confirmation: it will be refused or throw, it brings nothing new, or
   * exactly one of the new items the loop takes is named by no other and one of them names the head.
   */
  ghost predicate KeepsHead(name: Name, t: Entries, lhead: Option<Version>, obj: Ack, log: seq<Item>) {
    FitsHead(lhead, obj) && |obj.lcas| <= 1 ==>
      forall k: nat :: LastFoundAt(t, obj.n, k) ==> TakesOn(name, t, lhead, obj.n.id, k, log)
  }

  lemma OneLast(t: Entries, n: Item, j: nat, k: nat)
    requires LastFoundAt(t, n, j) && LastFoundAt(t, n, k)
    ensures j == k && FoundAt(t, n, j)
  {
  }

  lemma HandledHeads(c: Conf, log: seq<Item>, t: Entries, lhead: Option<Version>, n: Item, k: nat,
                     r: Answer, log': seq<Item>, t': Entries)
    requires WF(c, log) && OneHead(log) && IsHeadOf(log, n.id, lhead) && Batched(c, log, t, n)
    requires LastFoundAt(t, n, k) && Handled(c.name, t, n.id, k + 1, log, r, log', t')
    ensures OneHead(log') <==> TakesOn(c.name, t, lhead, n.id, k, log)
  {
    hide WF, OneHead, IsHeadOf, Loop, Acceptable, BatchFor, GoesOn, FoundAt, LastFoundAt, Appended, News;
    LoopIds(t, n.id, k + 1);
    if r == Written {
      HeadsAfter(c, log, Loop(t, n.id, k + 1).items, n.id, lhead);
    }
  }

  /** For every queue and every confirmation: one head is left exactly when that condition holds. */
  lemma ConfirmedHeads(c: Conf, log: seq<Item>, t: Entries, lhead: Option<Version>, obj: Ack,
                       r: Answer, log': seq<Item>, t': Entries)
    requires WF(c, log) && OneHead(log) && IsHeadOf(log, obj.n.id, lhead) && Batched(c, log, t, obj.n)
    requires ConfirmStep(c.name, t, lhead, obj, log, r, log', t')
    ensures OneHead(log') <==> KeepsHead(c.name, t, lhead, obj, log)
  {
    hide WF, OneHead, IsHeadOf, FitsHead, Handled, FoundAt, LastFoundAt, TakesOn, Batched;
    if FitsHead(lhead, obj) && |obj.lcas| <= 1 && exists k: nat :: FoundAt(t, obj.n, k) {
      var k := LastFound(t, obj.n);
      HandledHeads(c, log, t, lhead, obj.n, k, r, log', t');
      forall j: nat | LastFoundAt(t, obj.n, j) ensures j == k {
        OneLast(t, obj.n, j, k);
      }
    } else {
      forall j: nat | LastFoundAt(t, obj.n, j) ensures FoundAt(t, obj.n, j) {
        OneLast(t, obj.n, j, j);
      }
    }
  }

  lemma LastFound(t: Entries, n: Item) returns (k: nat)
    requires exists j: nat :: FoundAt(t, n, j)
    ensures LastFoundAt(t, n, k)
  {
    k :| FoundAt(t, n, k);
    var i := |t|;
    while !FoundAt(t, n, i)
      invariant k <= i <= |t| && forall j: nat :: i < j ==> !FoundAt(t, n, j)
      decreases i
    {
      i := i - 1;
    }
    k := i;
  }

  lemma LoopIds(t: Entries, id: Id, steps: nat)
    ensures OneId(Loop(t, id, steps).items, id)
  {
    var at := LoopTakes(t, id, steps);
  }

  /**
   * In a queue the loop is safe on, that is a condition on everything of the id that waits up to the
   * confirmed entry: the confirmed item, if new, is the one item named by no other.
   */
  lemma SafeQueueHeads(c: Conf, log: seq<Item>, t: Entries, lhead: Option<Version>, obj: Ack, k: nat,
                       r: Answer, log': seq<Item>, t': Entries)
    requires WF(c, log) && OneHead(log) && IsHeadOf(log, obj.n.id, lhead) && Batched(c, log, t, obj.n)
    requires ConfirmStep(c.name, t, lhead, obj, log, r, log', t') && FitsHead(lhead, obj) && |obj.lcas| <= 1
    requires LastFoundAt(t, obj.n, k) && Queue.Apart(t, obj.n.id) && Safe(t, obj.n.id, k + 1, k + 1)
    ensures var meant := Meant(t, obj.n.id, k + 1);
      && t' == meant.rest && log' == Appended(log, if r == Written then meant.items else [])
      && (r == Written <==> AllAcceptable(log, c.name, meant.items))
      && (OneHead(log') <==> r != Written || GoesOn(News(log, meant.items), lhead))
  {
    hide WF, OneHead, IsHeadOf, Loop, Meant, Safe, FitsHead, Acceptable, BatchFor, GoesOn, Queue.Apart, Appended;
    LoopIsMeant(t, obj.n.id, k + 1, k + 1);
    MeantNeverThrows(t, obj.n.id, k + 1);
    AppendedEmpty(log);
    ConfirmedHeads(c, log, t, lhead, obj, r, log', t');
    assert Handled(c.name, t, obj.n.id, k + 1, log, r, log', t');
    forall j: nat | LastFoundAt(t, obj.n, j) ensures j == k {
    }
  }

  lemma {:induction false} MeantNeverThrows(t: Entries, id: Id, n: nat)
    requires n <= |t|
    ensures !Meant(t, id, n).thrown
  {
    if n > 0 {
      MeantNeverThrows(t[1..], id, n - 1);
    }
  }

  lemma AppendedEmpty(log: seq<Item>)
    ensures Appended(log, []) == log
  {
  }

  // ---- confirmations that leave two heads ----

  /** Two neighbours of one id at the front, the second confirmed, another id behind: only the first is written. */
  lemma OnlyTheFirst(c: Conf, log: seq<Item>, a: Entry, b: Entry, rest: Entries, head: Version,
                     r: Answer, log': seq<Item>, t': Entries)
    requires WF(c, log) && OneHead(log) && IsHeadOf(log, a.n.id, Some(head))
    requires EntryOk(c, a) && Connects(log, [a.n], a.n) && Of(b, a.n.id) && rest != [] && !Of(rest[0], a.n.id)
    requires Handled(c.name, [a, b] + rest, a.n.id, 2, log, r, log', t')
    ensures r == Written && b in t' && (OneHead(log') <==> head in a.n.pa)
  {
    hide WF, OneHead, IsHeadOf, Connects, Appended;
    MergeIsMissed(a, b, rest, a.n.id);
    OnlyItem(log, c.name, a.n);
    NewlyConnected(log, a.n);
    OneAppended(c, log, a.n);
    OnHead(c, log, a.n.(i := Some(LastI(log) + 1)), Some(head));
    assert t'[0] == b;
  }

  /**
   * Confirming a genuine merge leaves two heads: with the remote item and its merge at the front of
   * the queue and another id behind them, only the remote item is stored and the merge stays in the
   * queue. One head remains only if the remote item was a child of the head, and so no merge was due.
   */
  lemma MergeLeavesTwoHeads(c: Conf, log: seq<Item>, it: Item, merge: Entry, rest: Entries, head: Version,
                            r: Answer, log': seq<Item>, t': Entries)
    requires WF(c, log) && OneHead(log) && IsHeadOf(log, it.id, Some(head))
    requires EntryOk(c, Alone(it)) && Connects(log, [it], it)
    requires Of(merge, it.id) && rest != [] && !Of(rest[0], it.id)
    requires Handled(c.name, [Alone(it), merge] + rest, it.id, 2, log, r, log', t')
    ensures r == Written && merge in t' && (OneHead(log') <==> head in it.pa)
  {
    OnlyTheFirst(c, log, Alone(it), merge, rest, head, r, log', t');
  }

  /**
   * So does confirming a fast-forward that another entry waits before: `n1` does not name the head `w`,
   * as a conflict made for `w` does not; `n2` came later and names both, so the guard lets it pass; the
   * loop then writes `n1` next to `w` and steps over `n2`.
   */
  lemma ForwardLeavesTwoHeads(c: Conf, log: seq<Item>, n1: Entry, n2: Entry, rest: Entries, pe: Name, w: Version,
                              r: Answer, log': seq<Item>, t': Entries)
    requires WF(c, log) && OneHead(log) && IsHeadOf(log, n1.n.id, Some(w))
    requires EntryOk(c, n1) && Connects(log, [n1.n], n1.n) && w !in n1.n.pa
    requires n2.n.id == n1.n.id && n2.n.pa == [n1.n.v, w] && n2.l == Some(n1.n.v) && n2.lcas == [n1.n.v]
    requires rest != [] && !Of(rest[0], n1.n.id)
    requires Handled(c.name, [n1, n2] + rest, n1.n.id, 2, log, r, log', t')
    ensures FitsHead(Some(w), Ack(n2.n, n2.l, n2.lcas, pe))
    ensures r == Written && n2 in t' && !OneHead(log')
  {
    OnlyTheFirst(c, log, n1, n2, rest, w, r, log', t');
    assert n2.n.pa[1] == w;
  }

  /**
   * One such input: a client put 2 on 1; a child 3 of 1 came from the remote and waits as a conflict with
   * 2; the remote resolved it by a child 4 of both, which waits behind as a fast-forward and is confirmed.
   */
  lemma ForwardExample() returns (log': seq<Item>, t': Entries)
    ensures var c, id := Conf([1], 1, 1), Id([1]);
      var log := [Bare(1, []).(i := Some(1)), Bare(2, [Version([1])]).(i := Some(2))];
      var n1 := Entry(Bare(3, [Version([1])]), Some(Version([2])), [Version([1])], Some(["k"]));
      var n2 := Entry(Bare(4, [Version([3]), Version([2])]), Some(Version([3])), [Version([3])], None);
      var other := Entry(Bare(5, []).(id := Id([2])), None, [], None);
      && WF(c, log) && OneHead(log) && IsHeadOf(log, id, Some(Version([2])))
      && FitsHead(Some(Version([2])), Ack(n2.n, n2.l, n2.lcas, [7]))
      && Handled(c.name, [n1, n2] + [other], id, 2, log, Written, log', t') && n2 in t' && !OneHead(log')
  {
    var c, v1, v2, v3 := Conf([1], 1, 1), Version([1]), Version([2]), Version([3]);
    var h, w := Bare(1, []).(i := Some(1)), Bare(2, [v1]).(i := Some(2));
    var n1 := Entry(Bare(3, [v1]), Some(v2), [v1], Some(["k"]));
    var n2 := Entry(Bare(4, [v3, v2]), Some(v3), [v3], None);
    var other := Entry(Bare(5, []).(id := Id([2])), None, [], None);
    OneByte();
    ExampleLog(c, h, w);
    assert Id([1]).bytes[0] != Id([2]).bytes[0];
    var taken := Loop([n1, n2] + [other], Id([1]), 2);
    var r := if taken.thrown then Thrown else if AllAcceptable([h, w], c.name, taken.items) then Written else Refused;
    log', t' := if r == Written then Appended([h, w], taken.items) else [h, w], taken.rest;
    assert Connects([h, w], [n1.n], n1.n) by {
      assert [h, w][0] == h && [h, w][1] == w;
      assert HasOf([h, w], Id([1]), v1);
    }
    hide WF, OneHead, IsHeadOf, Connects, Loop, Appended, Acceptable;
    ForwardLeavesTwoHeads(c, [h, w], n1, n2, [other], [7], v2, r, log', t');
  }

  lemma ExampleLog(c: Conf, h: Item, w: Item)
    requires c == Conf([1], 1, 1) && h == Bare(1, []).(i := Some(1)) && w == Bare(2, [Version([1])]).(i := Some(2))
    ensures WF(c, [h, w]) && OneHead([h, w]) && IsHeadOf([h, w], Id([1]), Some(Version([2])))
  {
    OneByte();
    var log := [h, w];
    assert log[0] == h && log[1] == w && w.pa[0] == h.v;
    assert Earlier(log, 1, h.v);
    forall v | Childless(log, v) && Has(log, v) ensures v == w.v {
    }
  }

  /**
   * And so does confirming an entry made for the head whose item does not name it, as a conflict is
   * queued: the remote's item is written next to the head.
   */
  lemma ConflictLeavesTwoHeads(c: Conf, log: seq<Item>, t: Entries, k: nat, pe: Name, head: Version,
                               r: Answer, log': seq<Item>, t': Entries)
    requires WF(c, log) && OneHead(log) && k < |t| && IsHeadOf(log, t[k].n.id, Some(head)) && EntryOk(c, t[k])
    requires (forall j :: 0 <= j < k ==> !Of(t[j], t[k].n.id)) && t[k].l == Some(head)
    requires Connects(log, [t[k].n], t[k].n) && head !in t[k].n.pa
    requires Handled(c.name, t, t[k].n.id, k + 1, log, r, log', t')
    ensures FitsHead(Some(head), Ack(t[k].n, t[k].l, t[k].lcas, pe))
    ensures r == Written && !OneHead(log')
  {
    hide WF, OneHead, IsHeadOf, Connects, Appended;
    var n := t[k].n;
    FirstOfId(t, n.id, k + 1);
    OnlyItem(log, c.name, n);
    NewlyConnected(log, n);
    OneAppended(c, log, n);
    OnHead(c, log, n.(i := Some(LastI(log) + 1)), Some(head));
  }

  lemma NewlyConnected(log: seq<Item>, it: Item)
    requires Connects(log, [it], it)
    ensures !Has(log, it.v)
  {
  }
}
