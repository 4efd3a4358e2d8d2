/**
 * Runs of the local tree from an empty start: drafts of clients, remote trees that grow, arrivals
 * from them and confirmations, in any order and from any number of remotes.
 */
module LocalRuns {
  import opened Items
  import opened Dag
  import opened Keys
  import opened Log
  import opened Meet
  import opened Queue
  import opened Heads
  import opened Arrivals
  import opened Merge
  import opened Stream
  import opened Tree
  import opened LocalWrite

  /**
   * The local log, the queue and the tree of each remote. `loose` collects the versions that were
   * queued when the two histories were not ones the ancestor search can take, or arrived a second
   * time while the first copy still waited.
   */
  datatype State = State(log: seq<Item>, queues: map<Name, Entries>, remotes: map<Name, seq<Item>>, loose: set<Version>)

  datatype Event =
    | Write(draft: Draft)
    | Receive(pe: Name, items: seq<Item>)
    | Come(pe: Name, it: Item, hash: Version)
    | Confirm(obj: Ack)

  // ---- the steps ----

  /** More than one head is an error on every path that looks for one. */
  ghost predicate MoreHeads(log: seq<Item>, id: Id) {
    exists v, w :: HeadOn(log, id, v) && HeadOn(log, id, w) && v != w
  }

  /** What a merge can give when nothing is known about what the ancestor search reports. */
  ghost predicate AnyMerge(sX: seq<Item>, sY: seq<Item>, o: MergeOutcome)
    requires sX != [] && sY != []
  {
    o.NoLca? || o.SeveralLcas? || o.LcaMismatch? || exists lca :: MergedAgainst(sX, sY, o, lca)
  }

  ghost predicate AnySort(sX: seq<Item>, sY: seq<Item>, it: Item, hash: Version, r: Arrival, queued: Entries)
    requires sX != [] && sY != []
  {
    exists o, lcas :: AnyMerge(sX, sY, o) && (r, queued) == Sort(o, lcas, it, sY[0].v, hash)
  }

  /** The outcome of an arrival: told by the two histories, as far as the ancestor search can take them. */
  ghost predicate ArriveStep(sX: seq<Item>, sY: seq<Item>, it: Item, hash: Version, r: Arrival, queued: Entries) {
    sX != [] && if Streams(sX, sY) || sY == [] then Classified(sX, sY, it, hash, r, queued)
                else AnySort(sX, sY, it, hash, r, queued)
  }

  ghost predicate Waiting(t: Entries, it: Item) {
    exists k :: 0 <= k < |t| && Of(t[k], it.id) && t[k].n.v == it.v
  }

  ghost function Versions(t: Entries): set<Version> {
    set k | 0 <= k < |t| :: t[k].n.v
  }

  /** An item that is found to be in the local tree is written again, to note its perspective. */
  ghost function NotedLog(name: Name, log: seq<Item>, it: Item, r: Arrival): seq<Item> {
    if r == Repeat && AllAcceptable(log, name, [it]) then Appended(log, [it]) else log
  }

  ghost predicate HashOk(c: Conf, sX: seq<Item>, sY: seq<Item>, hash: Version) {
    |hash.bytes| == c.vSize && !Has(sX, hash) && !Has(sY, hash)
  }

  ghost predicate Comes(c: Conf, s: State, pe: Name, it: Item, hash: Version, r: Arrival, queued: Entries, s': State)
    requires pe in s.queues && pe in s.remotes
  {
    var sX, sY := RemoteSide(s.remotes[pe], it), LocalSide(s.log, s.queues[pe], it.id);
    && HashOk(c, sX, sY, hash) && ArriveStep(sX, sY, it, hash, r, queued)
    && s' == State(NotedLog(c.name, s.log, it, r), s.queues[pe := s.queues[pe] + queued], s.remotes,
                   if Streams(sX, sY) && !Waiting(s.queues[pe], it) then s.loose else s.loose + Versions(queued))
  }

  ghost predicate Confirms(c: Conf, s: State, obj: Ack, head: Option<Version>, r: Answer, s': State)
    requires obj.pe in s.queues
  {
    && IsHeadOf(s.log, obj.n.id, head) && obj.pe in s'.queues
    && ConfirmStep(c.name, s.queues[obj.pe], head, obj, s.log, r, s'.log, s'.queues[obj.pe])
    && s' == State(s'.log, s.queues[obj.pe := s'.queues[obj.pe]], s.remotes, s.loose)
  }

  ghost predicate Next(c: Conf, s: State, e: Event, s': State) {
    match e
    case Write(d) =>
      && TextId(d.id.bytes) && |d.v.bytes| == c.vSize
      && if MoreHeads(s.log, d.id) then s' == s else
         && s' == State(s'.log, s.queues, s.remotes, s.loose)
         && exists head, r :: IsHeadOf(s.log, d.id, head) && DraftStep(head, d, s.log, r, s'.log)
    case Receive(pe, items) =>
      && pe in s.remotes && WF(c.(name := pe), s.remotes[pe] + items)
      && s' == State(s.log, s.queues, s.remotes[pe := s.remotes[pe] + items], s.loose)
    case Come(pe, it, hash) =>
      && pe in s.queues && pe in s.remotes && FromRemote(pe, s.remotes[pe], it)
      && if Pending(s.queues[pe], it.id) == [] && MoreHeads(s.log, it.id) then s' == s else
         exists r, queued :: Comes(c, s, pe, it, hash, r, queued, s')
    case Confirm(obj) =>
      && obj.pe in s.queues
      && if MoreHeads(s.log, obj.n.id) then s' == s else
         && Batched(c, s.log, s.queues[obj.pe], obj.n)
         && exists head, r :: Confirms(c, s, obj, head, r, s')
  }

  ghost predicate Base(c: Conf, s: State) {
    && WF(c, s.log) && c.name !in s.queues
    && (forall pe :: pe in s.queues ==> QueueOk(c, s.queues[pe]))
    && (forall pe :: pe in s.remotes ==> WF(c.(name := pe), s.remotes[pe]))
  }

  ghost predicate Initial(c: Conf, s: State) {
    && s.log == [] && s.loose == {} && c.name !in s.queues
    && (forall pe :: pe in s.queues ==> s.queues[pe] == [] && pe in s.remotes)
    && (forall pe :: pe in s.remotes ==> s.remotes[pe] == [])
  }

  ghost predicate IsRun(c: Conf, ss: seq<State>, es: seq<Event>) {
    |ss| == |es| + 1 && Initial(c, ss[0]) && forall k :: 0 <= k < |es| ==> Next(c, ss[k], es[k], ss[k + 1])
  }

  // ---- what the local tree does is a step ----

  /** A new local tree with its remotes is a start. */
  lemma NewIsInitial(c: Conf, names: set<Name>)
    requires c.name !in names
    ensures Initial(c, State([], map pe | pe in names :: [], map pe | pe in names :: [], {}))
  {
  }

  /** A draft that is written or refused is a step. */
  lemma DraftIsStep(c: Conf, s: State, d: Draft, head: Option<Version>, r: Answer, log': seq<Item>)
    requires OneHead(s.log) && TextId(d.id.bytes) && |d.v.bytes| == c.vSize
    requires IsHeadOf(s.log, d.id, head) && DraftStep(head, d, s.log, r, log')
    ensures Next(c, s, Write(d), s.(log := log'))
  {
    hide OneHead, IsHeadOf, DraftStep, MoreHeads, TextId;
    OneOnly(s.log, d.id);
  }

  /** A batch that a remote tree takes is a step. */
  lemma ReceiptIsStep(c: Conf, s: State, pe: Name, items: seq<Item>)
    requires pe in s.remotes && WF(c.(name := pe), s.remotes[pe] + items)
    ensures Next(c, s, Receive(pe, items), s.(remotes := s.remotes[pe := s.remotes[pe] + items]))
  {
    hide WF;
  }

  /** An arrival from a remote tree is a step that leaves the log as it is. */
  lemma ArrivalIsStep(c: Conf, s: State, pe: Name, it: Item, hash: Version, r: Arrival, queued: Entries)
    requires Base(c, s) && OneHead(s.log) && pe in s.queues && pe in s.remotes && FromRemote(pe, s.remotes[pe], it)
    requires var sX, sY := RemoteSide(s.remotes[pe], it), LocalSide(s.log, s.queues[pe], it.id);
      |hash.bytes| == c.vSize && !Has(sX, hash) && !Has(sY, hash) && Streams(sX, sY) && sX != []
      && Classified(sX, sY, it, hash, r, queued)
    ensures Next(c, s, Come(pe, it, hash), State(s.log, s.queues[pe := s.queues[pe] + queued], s.remotes,
                 if Waiting(s.queues[pe], it) then s.loose + Versions(queued) else s.loose))
  {
    hide WF, OneHead, QueueOk, FromRemote, RemoteSide, LocalSide, Streams, Classified, MoreHeads, Waiting, Appended, Has;
    var t, rlog := s.queues[pe], s.remotes[pe];
    var sX, sY := RemoteSide(rlog, it), LocalSide(s.log, t, it.id);
    OneOnly(s.log, it.id);
    if r == Repeat {
      RemoteStarts(c, c.(name := pe), rlog, it);
      LocalItems(c, s.log, t, it.id);
      RepeatIsStored(s.log, sX, sY, it, hash, queued);
      NothingAppended(s.log, it);
    }
    assert Comes(c, s, pe, it, hash, r, queued, State(s.log, s.queues[pe := t + queued], s.remotes,
                 if Waiting(t, it) then s.loose + Versions(queued) else s.loose));
  }

  /** A confirmation is a step. */
  lemma ConfirmIsStep(c: Conf, s: State, obj: Ack, head: Option<Version>, r: Answer, log': seq<Item>, t': Entries)
    requires OneHead(s.log) && obj.pe in s.queues && IsHeadOf(s.log, obj.n.id, head)
    requires Batched(c, s.log, s.queues[obj.pe], obj.n)
    requires ConfirmStep(c.name, s.queues[obj.pe], head, obj, s.log, r, log', t')
    ensures Next(c, s, Confirm(obj), State(log', s.queues[obj.pe := t'], s.remotes, s.loose))
  {
    hide OneHead, IsHeadOf, ConfirmStep, Batched, MoreHeads;
    OneOnly(s.log, obj.n.id);
    assert Confirms(c, s, obj, head, r, State(log', s.queues[obj.pe := t'], s.remotes, s.loose));
  }

  // ---- one head over every run: the exact condition ----

  /** What can be checked before a confirmation; nothing has to be checked before any other event. */
  ghost predicate Fine(c: Conf, s: State, e: Event) {
    match e
    case Confirm(obj) =>
      obj.pe in s.queues ==> forall head :: IsHeadOf(s.log, obj.n.id, head) ==>
        KeepsHead(c.name, s.queues[obj.pe], head, obj, s.log)
    case _ => true
  }

  lemma OneOnly(log: seq<Item>, id: Id)
    requires OneHead(log)
    ensures !MoreHeads(log, id)
  {
    hide Childless, HasOf;
  }

  /** Every event keeps the trees and queues in order, and one head exactly under that condition. */
  lemma StepKeepsHead(c: Conf, s: State, e: Event, s': State)
    requires Base(c, s) && OneHead(s.log) && Next(c, s, e, s')
    ensures Base(c, s') && (OneHead(s'.log) <==> Fine(c, s, e))
  {
    hide WF, OneHead, QueueOk, MoreHeads, DraftStep, Comes, Confirms, FromRemote, Pending, KeepsHead, IsHeadOf, Batched;
    match e
    case Write(d) =>
      OneOnly(s.log, d.id);
      var head, r :| IsHeadOf(s.log, d.id, head) && DraftStep(head, d, s.log, r, s'.log);
      DraftKeepsHead(c, s.log, d, head, r, s'.log);
    case Receive(pe, items) =>
    case Come(pe, it, hash) =>
      OneOnly(s.log, it.id);
      var r, queued :| Comes(c, s, pe, it, hash, r, queued, s');
      ArrivalKeeps(c, s, pe, it, hash, r, queued, s');
    case Confirm(obj) =>
      OneOnly(s.log, obj.n.id);
      var head, r :| Confirms(c, s, obj, head, r, s');
      ConfirmKeeps(c, s, obj, head, r, s');
      forall h | IsHeadOf(s.log, obj.n.id, h) ensures h == head {
        SameHeads(s.log, obj.n.id, h, head);
      }
  }

  lemma DraftKeepsHead(c: Conf, log: seq<Item>, d: Draft, head: Option<Version>, r: Answer, log': seq<Item>)
    requires WF(c, log) && OneHead(log) && IsHeadOf(log, d.id, head) && DraftStep(head, d, log, r, log')
    requires TextId(d.id.bytes) && |d.v.bytes| == c.vSize
    ensures WF(c, log') && OneHead(log')
  {
    hide OneHead, WF, BatchFor, NewVersion, IsHeadOf, Has;
    if r == Written {
      DraftIsNew(head, d, log, r, log');
      DraftFits(c, log, d, head);
      DraftAccepted(c, log, d, head);
    }
  }

  lemma HandledKeeps(c: Conf, log: seq<Item>, t: Entries, n: Item, k: nat, r: Answer, log': seq<Item>, t': Entries)
    requires WF(c, log) && QueueOk(c, t) && Batched(c, log, t, n) && LastFoundAt(t, n, k)
    requires Handled(c.name, t, n.id, k + 1, log, r, log', t')
    ensures WF(c, log') && QueueOk(c, t')
  {
    hide WF, QueueOk, Loop, LastFoundAt, Acceptable, BatchFor, Appended;
    var taken := Loop(t, n.id, k + 1);
    LoopCount(t, n.id, k + 1);
    RestOk(c, t, taken.rest);
    if r == Written {
      assert taken.items[..|taken.items|] == taken.items;
      AppendWF(c, log, taken.items, |taken.items|);
    }
  }

  /** A confirmation stores a batch of what was queued, or nothing. */
  lemma ConfirmKeeps(c: Conf, s: State, obj: Ack, head: Option<Version>, r: Answer, s': State)
    requires Base(c, s) && OneHead(s.log) && obj.pe in s.queues && Confirms(c, s, obj, head, r, s')
    requires Batched(c, s.log, s.queues[obj.pe], obj.n)
    ensures Base(c, s') && IsHeadOf(s.log, obj.n.id, head)
    ensures OneHead(s'.log) <==> KeepsHead(c.name, s.queues[obj.pe], head, obj, s.log)
  {
    hide WF, OneHead, IsHeadOf, FitsHead, KeepsHead, QueueOk, Handled, FoundAt, LastFoundAt, Batched;
    var t := s.queues[obj.pe];
    ConfirmedHeads(c, s.log, t, head, obj, r, s'.log, s'.queues[obj.pe]);
    if FitsHead(head, obj) && |obj.lcas| <= 1 && exists k: nat :: FoundAt(t, obj.n, k) {
      var k := LastFound(t, obj.n);
      HandledKeeps(c, s.log, t, obj.n, k, r, s'.log, s'.queues[obj.pe]);
    }
  }

  /** An arrival queues proper entries and stores nothing. */
  lemma ArrivalKeeps(c: Conf, s: State, pe: Name, it: Item, hash: Version, r: Arrival, queued: Entries, s': State)
    requires Base(c, s) && pe in s.queues && pe in s.remotes && FromRemote(pe, s.remotes[pe], it)
    requires Comes(c, s, pe, it, hash, r, queued, s')
    ensures Base(c, s') && s'.log == s.log
  {
    hide WF, QueueOk, FromRemote, Streams, Classified, AnySort, RemoteSide, LocalSide, Appended, EntryOk, Acceptable;
    var t, rlog := s.queues[pe], s.remotes[pe];
    var sX, sY := RemoteSide(rlog, it), LocalSide(s.log, t, it.id);
    RemoteStarts(c, c.(name := pe), rlog, it);
    LocalItems(c, s.log, t, it.id);
    QueuedFits(c, t, sX, sY, it, hash, r, queued);
    if r == Repeat {
      RepeatIsStored(s.log, sX, sY, it, hash, queued);
      NothingAppended(s.log, it);
    }
  }

  /** The items of the local side: waiting ones have no number, and the others are in the log. */
  lemma LocalItems(c: Conf, log: seq<Item>, t: Entries, id: Id)
    requires WF(c, log) && QueueOk(c, t)
    ensures var sY := LocalSide(log, t, id);
      && (forall k :: 0 <= k < |sY| ==> sY[k].id == id && |sY[k].v.bytes| == c.vSize)
      && (forall k :: 0 <= k < |sY| && sY[k] !in log ==> exists j :: 0 <= j < |t| && t[j].n == sY[k] && Of(t[j], id))
      && (sY != [] && sY[0].i.Some? ==> forall k :: 0 <= k < |sY| ==> sY[k] in log)
  {
    hide Numbered, Linked, Distinct, Wanted;
    var p, w := Pending(t, id), Wanted(log, Backward(id, None));
    SuppliesSearch(c, log, id, None);
    forall k | 0 <= k < |w| ensures Fitting(c, w[k]) {
      StoredItem(c, log, w[k]);
    }
    forall k | 0 <= k < |p| ensures exists j :: 0 <= j < |t| && t[j].n == p[k] && Of(t[j], id) && EntryOk(c, t[j]) {
      assert p[k] in p;
      PendingAre(t, id, p[k]);
    }
  }

  /** A result without a version has both items as parents; one with a number is the local item itself. */
  lemma BothAre(o: MergeOutcome, x: Node, y: Node, lcaX: Node, lcaY: Node)
    requires IsOutcome(o, x, y, lcaX, lcaY) && o.Both? && x.v.Some? && y.v.Some?
    ensures o.y.v.None? ==> o.x.id == x.id && o.x.pa == [x.v.value, y.v.value]
    ensures o.y.v.Some? && o.y.i.Some? ==> o.y == y && (x.v == y.v || (lcaY.v == x.v))
  {
    hide IsMerge, ConflictsAre, NoConflict, Doc;
  }

  lemma AnyBoth(sX: seq<Item>, sY: seq<Item>, o: MergeOutcome)
    requires sX != [] && sY != [] && AnyMerge(sX, sY, o) && o.Both?
    ensures o.y.v.None? ==> o.x.id == sX[0].id && o.x.pa == [sX[0].v, sY[0].v]
    ensures o.y.v.Some? && o.y.i.Some? ==> sY[0].i.Some? && exists k :: 0 <= k < |sY| && sY[k].v == sX[0].v
  {
    hide IsOutcome;
    var lca :| MergedAgainst(sX, sY, o, lca);
    var lx, ly :| lx in sX && ly in sY && lx.v == lca && ly.v == lca
                  && IsOutcome(o, NodeOf(sX[0]), NodeOf(sY[0]), NodeOf(lx), NodeOf(ly));
    BothAre(o, NodeOf(sX[0]), NodeOf(sY[0]), NodeOf(lx), NodeOf(ly));
    var k :| 0 <= k < |sY| && sY[k] == ly;
  }

  /** Whatever the ancestor search reports, an arrival that is taken for stored already is stored. */
  lemma RepeatIsStored(log: seq<Item>, sX: seq<Item>, sY: seq<Item>, it: Item, hash: Version, queued: Entries)
    requires ArriveStep(sX, sY, it, hash, Repeat, queued) && sX[0].v == it.v
    requires sY != [] && sY[0].i.Some? ==> forall k :: 0 <= k < |sY| ==> sY[k] in log
    ensures Has(log, it.v)
  {
    hide Streams, AnyMerge, Against, Decided, Told, Anc;
    if !Streams(sX, sY) && sY != [] {
      var o, lcas :| AnyMerge(sX, sY, o) && (Repeat, queued) == Sort(o, lcas, it, sY[0].v, hash);
      AnyBoth(sX, sY, o);
    }
    var k :| 0 <= k < |sY| && sY[k].v == it.v;
    assert sY[k] in log;
  }

  lemma QueuedFits(c: Conf, t: Entries, sX: seq<Item>, sY: seq<Item>, it: Item, hash: Version, r: Arrival, queued: Entries)
    requires QueueOk(c, t) && EntryOk(c, Alone(it)) && ArriveStep(sX, sY, it, hash, r, queued)
    requires sX[0].v == it.v && sX[0].id == it.id && HashOk(c, sX, sY, hash)
    requires forall k :: 0 <= k < |sY| ==> |sY[k].v.bytes| == c.vSize
    ensures QueueOk(c, t + queued)
  {
    hide Streams, Classified, AnyMerge, Sort;
    if Streams(sX, sY) || sY == [] {
      QueuedOk(c, t, sX, sY, it, hash, r, queued);
    } else {
      var o, lcas :| AnyMerge(sX, sY, o) && (r, queued) == Sort(o, lcas, it, sY[0].v, hash);
      SortedAre(sX, sY, it, hash, o, lcas);
      forall k | 0 <= k < |queued| ensures EntryOk(c, queued[k]) {
        assert queued[k] in queued;
      }
      QueueOkJoin(c, t, queued);
    }
  }

  lemma QueueOkJoin(c: Conf, t: Entries, queued: Entries)
    requires QueueOk(c, t) && QueueOk(c, queued)
    ensures QueueOk(c, t + queued)
  {
    hide EntryOk;
  }

  /** Every outcome queues the item itself, or its merge with the latest head. */
  lemma SortedAre(sX: seq<Item>, sY: seq<Item>, it: Item, hash: Version, o: MergeOutcome, lcas: seq<Version>)
    requires sX != [] && sY != [] && AnyMerge(sX, sY, o) && sX[0].v == it.v && sX[0].id == it.id
    ensures forall e :: e in Sort(o, lcas, it, sY[0].v, hash).1 ==>
              e.n == it || (e.n.id == it.id && e.n.v == hash && e.n.pa == [it.v, sY[0].v] && e.n.pe.None? && e.n.i.None?)
  {
    hide AnyMerge;
    if o.Both? {
      AnyBoth(sX, sY, o);
    }
  }

  ghost predicate AllOneHead(ss: seq<State>, n: nat) {
    forall k :: 0 <= k < n && k < |ss| ==> OneHead(ss[k].log)
  }

  ghost predicate AllFine(c: Conf, ss: seq<State>, es: seq<Event>, n: nat) {
    forall k :: 0 <= k < n && k < |es| && k < |ss| ==> Fine(c, ss[k], es[k])
  }

  /**
   * Over every run from the start, the local tree has one head per id all along exactly when every
   * confirmation met its condition at the time it was made.
   */
  lemma OneHeadOverRuns(c: Conf, ss: seq<State>, es: seq<Event>)
    requires IsRun(c, ss, es)
    ensures AllOneHead(ss, |ss|) <==> AllFine(c, ss, es, |es|)
  {
    hide Initial, Next, Fine, OneHead;
    UpTo(c, ss, es, |es|);
  }

  lemma {:induction false} UpTo(c: Conf, ss: seq<State>, es: seq<Event>, n: nat)
    requires IsRun(c, ss, es) && n <= |es|
    ensures AllOneHead(ss, n + 1) <==> AllFine(c, ss, es, n)
    ensures AllOneHead(ss, n + 1) ==> Base(c, ss[n])
  {
    hide Next, Fine, OneHead, Base;
    if n == 0 {
      StartIsBase(c, ss[0]);
    } else {
      UpTo(c, ss, es, n - 1);
      if AllOneHead(ss, n) {
        StepKeepsHead(c, ss[n - 1], es[n - 1], ss[n]);
      }
    }
  }

  lemma StartIsBase(c: Conf, s: State)
    requires Initial(c, s)
    ensures Base(c, s) && OneHead(s.log)
  {
  }

  /** A confirmation made for another head, whose item does not name the head either, changes nothing. */
  lemma StaleIsRefused(c: Conf, s: State, obj: Ack, s': State, head: Option<Version>)
    requires OneHead(s.log) && Next(c, s, Confirm(obj), s')
    requires IsHeadOf(s.log, obj.n.id, head) && head != obj.l && (head.Some? ==> head.value !in obj.n.pa)
    ensures s' == s
  {
    hide OneHead, IsHeadOf, MoreHeads, Batched, FoundAt, Handled;
    OneOnly(s.log, obj.n.id);
    var h, r :| Confirms(c, s, obj, h, r, s');
    SameHeads(s.log, obj.n.id, h, head);
    assert s.queues[obj.pe := s.queues[obj.pe]] == s.queues;
  }

  // ---- runs that need no such condition ----

  /**
   * What was true when the versions were made: each came after its parents, and where `parents`
   * tells the parents of a version, no filter has changed them in any tree.
   */
  datatype History = History(rank: Version -> nat, parents: Version -> Option<seq<Version>>)

  ghost predicate Made(it: Item, h: History) {
    Ranked(it, h.rank) && (h.parents(it.v).Some? ==> it.pa == h.parents(it.v).value)
  }

  ghost predicate AllMade(log: seq<Item>, h: History) {
    forall k :: 0 <= k < |log| ==> Made(log[k], h)
  }

  /** An event brings only versions made like that. */
  ghost predicate Timely(s: State, e: Event, h: History) {
    match e
    case Write(d) => forall head :: IsHeadOf(s.log, d.id, head) ==> Made(NewVersion(d, head), h)
    case Receive(pe, items) => AllMade(items, h)
    case Come(pe, it, hash) =>
      pe in s.queues ==>
        var sY := LocalSide(s.log, s.queues[pe], it.id);
        sY != [] ==> Made(Item(it.id, hash, [it.v, sY[0].v], false, false, None, None, None), h)
    case Confirm(obj) => true
  }

  /** The confirmation echoes an entry without conflict, the first waiting one of its id. */
  ghost predicate EchoesFirst(t: Entries, obj: Ack, k: nat)
    requires k < |t|
  {
    && (forall j :: 0 <= j < k ==> !Of(t[j], obj.n.id))
    && obj.l == t[k].l && obj.n.pa == t[k].n.pa && t[k].c.None?
  }

  ghost predicate InOrder(s: State, e: Event) {
    match e
    case Confirm(obj) =>
      obj.pe in s.queues ==> forall k: nat :: LastFoundAt(s.queues[obj.pe], obj.n, k) ==>
        EchoesFirst(s.queues[obj.pe], obj, k) && obj.n.v !in s.loose
    case _ => true
  }

  /**
   * What a queued entry is based on: made for no head, for a parent of its item or for an ancestor
   * in the remote tree; or its item is stored by now. Conflicts and loose entries promise nothing.
   */
  ghost predicate Based(log: seq<Item>, rlog: seq<Item>, loose: set<Version>, e: Entry) {
    e.l.Some? && e.c.None? && e.n.v !in loose ==>
      e.l.value in e.n.pa || Forwards(rlog, e.n, e.l.value) || Has(log, e.n.v)
  }

  ghost predicate QueueKept(s: State, h: History, pe: Name)
    requires pe in s.queues && pe in s.remotes
  {
    forall k :: 0 <= k < |s.queues[pe]| ==>
      Made(s.queues[pe][k].n, h) && Based(s.log, s.remotes[pe], s.loose, s.queues[pe][k])
  }

  ghost predicate Kept(c: Conf, s: State, h: History) {
    && Base(c, s) && AllMade(s.log, h)
    && (forall pe :: pe in s.remotes ==> AllMade(s.remotes[pe], h))
    && (forall pe :: pe in s.queues ==> pe in s.remotes && QueueKept(s, h, pe))
  }

  lemma BasedGrows(log: seq<Item>, rlog: seq<Item>, loose: set<Version>, log': seq<Item>, rlog': seq<Item>,
                   loose': set<Version>, e: Entry)
    requires Based(log, rlog, loose, e) && log <= log' && rlog <= rlog' && loose <= loose'
    ensures Based(log', rlog', loose', e)
  {
    if e.l.Some? && Forwards(rlog, e.n, e.l.value) {
      hide Anc;
      forall k | 0 <= k < |rlog| ensures rlog[k] in rlog' {
        assert rlog'[k] == rlog[k];
      }
      MorePaths(rlog, rlog', e.n.v, e.l.value);
      var k :| 0 <= k < |rlog| && rlog[k].v == e.n.v && rlog[k].pa == e.n.pa;
      assert rlog'[k] == rlog[k];
      var j :| 0 <= j < |rlog| && rlog[j].v == e.l.value;
      assert rlog'[j] == rlog[j];
    }
    if j :| 0 <= j < |log| && log[j].v == e.n.v {
      assert log'[j] == log[j];
    }
  }

  /** What the entries of a queue are based on survives growing logs. */
  lemma QueueGrows(s: State, s': State, h: History, pe: Name)
    requires pe in s.queues && pe in s.remotes && pe in s'.queues && pe in s'.remotes
    requires QueueKept(s, h, pe) && s.log <= s'.log && s.remotes[pe] <= s'.remotes[pe] && s.loose <= s'.loose
    requires forall e :: e in s'.queues[pe] ==> e in s.queues[pe]
    ensures QueueKept(s', h, pe)
  {
    hide Made, Based;
    var t, t' := s.queues[pe], s'.queues[pe];
    forall k | 0 <= k < |t'| ensures Made(t'[k].n, h) && Based(s'.log, s'.remotes[pe], s'.loose, t'[k]) {
      assert t'[k] in t;
      BasedGrows(s.log, s.remotes[pe], s.loose, s'.log, s'.remotes[pe], s'.loose, t'[k]);
    }
  }

  lemma QueuesGrow(s: State, s': State, h: History)
    requires s'.queues == s.queues && s.log <= s'.log && s.loose <= s'.loose
    requires forall pe :: pe in s.queues ==> pe in s.remotes && QueueKept(s, h, pe)
    requires forall pe :: pe in s.queues ==> pe in s'.remotes && s.remotes[pe] <= s'.remotes[pe]
    ensures forall pe :: pe in s'.queues ==> QueueKept(s', h, pe)
  {
    hide QueueKept;
    forall pe | pe in s'.queues ensures QueueKept(s', h, pe) {
      QueueGrows(s, s', h, pe);
    }
  }

  /** Each event keeps what the queued entries are based on. */
  lemma StepKeeps(c: Conf, s: State, e: Event, s': State, h: History)
    requires Kept(c, s, h) && OneHead(s.log) && Next(c, s, e, s') && Timely(s, e, h)
    ensures Kept(c, s', h)
  {
    hide Base, OneHead, WF, MoreHeads, DraftStep, Comes, Confirms;
    hide FromRemote, Pending, IsHeadOf, Batched, QueueKept, AllMade, Made;
    StepKeepsHead(c, s, e, s');
    match e
    case Write(d) =>
      OneOnly(s.log, d.id);
      var head, r :| IsHeadOf(s.log, d.id, head) && DraftStep(head, d, s.log, r, s'.log);
      DraftMade(s.log, d, head, r, s'.log, h);
      QueuesGrow(s, s', h);
    case Receive(pe, items) =>
      MadeJoin(s.remotes[pe], items, h);
      QueuesGrow(s, s', h);
    case Come(pe, it, hash) =>
      OneOnly(s.log, it.id);
      var r, queued :| Comes(c, s, pe, it, hash, r, queued, s');
      ArrivalKept(c, s, pe, it, hash, r, queued, s', h);
    case Confirm(obj) =>
      OneOnly(s.log, obj.n.id);
      var head, r :| Confirms(c, s, obj, head, r, s');
      ConfirmKept(c, s, obj, head, r, s', h);
  }

  lemma MadeJoin(a: seq<Item>, b: seq<Item>, h: History)
    requires AllMade(a, h) && AllMade(b, h)
    ensures AllMade(a + b, h)
  {
    hide Made;
  }

  lemma DraftMade(log: seq<Item>, d: Draft, head: Option<Version>, r: Answer, log': seq<Item>, h: History)
    requires AllMade(log, h) && DraftStep(head, d, log, r, log') && Made(NewVersion(d, head), h)
    ensures AllMade(log', h) && log <= log'
  {
  }

  lemma AppendedMade(log: seq<Item>, items: seq<Item>, h: History)
    requires AllMade(log, h) && AllMade(items, h)
    ensures AllMade(Appended(log, items), h) && log <= Appended(log, items)
  {
    hide Made;
    var N := News(log, items);
    var L := Appended(log, items);
    forall k | 0 <= k < |L| ensures Made(L[k], h) {
      if k >= |log| {
        NewsAre(log, items, N[k - |log|]);
        MadeStamped(N[k - |log|], L[k].i, h);
      }
    }
  }

  lemma MadeStamped(it: Item, i: Option<nat>, h: History)
    requires Made(it, h)
    ensures Made(it.(i := i), h)
  {
  }

  lemma ConfirmKept(c: Conf, s: State, obj: Ack, head: Option<Version>, r: Answer, s': State, h: History)
    requires Kept(c, s, h) && obj.pe in s.queues && Confirms(c, s, obj, head, r, s')
    ensures AllMade(s'.log, h) && s'.remotes == s.remotes
    ensures forall pe :: pe in s'.queues ==> pe in s'.remotes && QueueKept(s', h, pe)
  {
    hide Base, IsHeadOf, FitsHead, QueueKept, Loop, FoundAt, Acceptable, AllMade, Appended, Made;
    var t := s.queues[obj.pe];
    if FitsHead(head, obj) && |obj.lcas| <= 1 && exists k: nat :: FoundAt(t, obj.n, k) {
      var k := LastFound(t, obj.n);
      var taken := Loop(t, obj.n.id, k + 1);
      LoopCount(t, obj.n.id, k + 1);
      var at := LoopTakes(t, obj.n.id, k + 1);
      TakenMade(s, h, obj.pe, at, obj.n.id, taken.items);
      AppendedMade(s.log, taken.items, h);
    }
    forall pe | pe in s'.queues ensures QueueKept(s', h, pe) {
      QueueGrows(s, s', h, pe);
    }
  }

  lemma TakenMade(s: State, h: History, pe: Name, at: seq<nat>, id: Id, items: seq<Item>)
    requires pe in s.queues && pe in s.remotes && QueueKept(s, h, pe) && TakenAt(s.queues[pe], id, at, items)
    ensures AllMade(items, h)
  {
    hide Made, Based;
  }

  /** What an arrival queues is based on the latest head, or loose. */
  lemma ArrivalKept(c: Conf, s: State, pe: Name, it: Item, hash: Version, r: Arrival, queued: Entries, s': State, h: History)
    requires Kept(c, s, h) && pe in s.queues && FromRemote(pe, s.remotes[pe], it)
    requires Comes(c, s, pe, it, hash, r, queued, s') && Timely(s, Come(pe, it, hash), h)
    ensures AllMade(s'.log, h) && s'.remotes == s.remotes
    ensures forall p :: p in s'.queues ==> p in s'.remotes && QueueKept(s', h, p)
  {
    hide QueueKept, Streams, ArriveStep, FromRemote, RemoteSide, LocalSide, Made;
    hide AllMade, WF, QueueOk, Waiting, HashOk, NotedLog;
    var t, rlog := s.queues[pe], s.remotes[pe];
    ArrivalKeeps(c, s, pe, it, hash, r, queued, s');
    forall p | p in s'.queues && p != pe ensures QueueKept(s', h, p) {
      QueueGrows(s, s', h, p);
    }
    var u := s.(loose := s'.loose);
    QueueGrows(s, u, h, pe);
    forall e | e in queued ensures Made(e.n, h) && Based(s.log, rlog, s'.loose, e) {
      EntryKept(c, s, pe, it, hash, r, queued, s', h, e);
    }
    QueueJoin(u, s', h, pe, queued);
  }

  lemma QueueJoin(u: State, s': State, h: History, pe: Name, queued: Entries)
    requires pe in u.queues && pe in u.remotes && QueueKept(u, h, pe)
    requires s' == u.(queues := u.queues[pe := u.queues[pe] + queued])
    requires forall e :: e in queued ==> Made(e.n, h) && Based(u.log, u.remotes[pe], u.loose, e)
    ensures QueueKept(s', h, pe)
  {
    hide Made, Based;
    var t := u.queues[pe];
    forall k | 0 <= k < |t + queued|
      ensures Made((t + queued)[k].n, h) && Based(u.log, u.remotes[pe], u.loose, (t + queued)[k])
    {
      if k >= |t| {
        assert queued[k - |t|] in queued;
      }
    }
  }

  lemma EntryKept(c: Conf, s: State, pe: Name, it: Item, hash: Version, r: Arrival, queued: Entries, s': State, h: History,
                  e: Entry)
    requires Kept(c, s, h) && pe in s.queues && FromRemote(pe, s.remotes[pe], it) && e in queued
    requires Comes(c, s, pe, it, hash, r, queued, s') && Timely(s, Come(pe, it, hash), h)
    ensures Made(e.n, h) && Based(s.log, s.remotes[pe], s'.loose, e)
  {
    hide WF, QueueOk, QueueKept, FromRemote, Streams, Classified;
    hide AnySort, RemoteSide, LocalSide, EntryOk, Waiting, Forwards;
    var t, rlog := s.queues[pe], s.remotes[pe];
    var sX, sY := RemoteSide(rlog, it), LocalSide(s.log, t, it.id);
    RemoteStarts(c, c.(name := pe), rlog, it);
    RemoteMade(rlog, pe, it, h);
    QueuedItems(sX, sY, it, hash, r, queued, e);
    if Streams(sX, sY) && !Waiting(t, it) {
      LocalItems(c, s.log, t, it.id);
      QueuedBased(c, s.log, t, rlog, pe, it, hash, r, queued, e);
    } else {
      var k :| 0 <= k < |queued| && queued[k] == e;
      assert e.n.v in Versions(queued);
    }
  }

  lemma RemoteMade(rlog: seq<Item>, pe: Name, it: Item, h: History)
    requires AllMade(rlog, h) && FromRemote(pe, rlog, it)
    ensures Made(it, h)
  {
  }

  lemma ClassifiedItems(sX: seq<Item>, sY: seq<Item>, it: Item, hash: Version, r: Arrival, queued: Entries, e: Entry)
    requires sX != [] && Classified(sX, sY, it, hash, r, queued) && sX[0].v == it.v && e in queued
    ensures e.n == it || (sY != [] && e.n.v == hash && e.n.pa == [it.v, sY[0].v])
  {
    hide RootIsAncestor, Decided, Told, IsMeet;
  }

  /** What is queued is the item itself, or its merge with the latest head. */
  lemma QueuedItems(sX: seq<Item>, sY: seq<Item>, it: Item, hash: Version, r: Arrival, queued: Entries, e: Entry)
    requires ArriveStep(sX, sY, it, hash, r, queued) && sX[0].v == it.v && sX[0].id == it.id && e in queued
    ensures e.n == it || (sY != [] && e.n.v == hash && e.n.pa == [it.v, sY[0].v])
  {
    hide Streams, Classified, AnyMerge, Sort;
    if !Streams(sX, sY) && sY != [] {
      var o, lcas :| AnyMerge(sX, sY, o) && (r, queued) == Sort(o, lcas, it, sY[0].v, hash);
      SortedAre(sX, sY, it, hash, o, lcas);
    } else {
      ClassifiedItems(sX, sY, it, hash, r, queued, e);
    }
  }

  /** An item that is merged, and does not wait already, is queued on a sound base. */
  lemma QueuedBased(c: Conf, log: seq<Item>, t: Entries, rlog: seq<Item>, pe: Name, it: Item, hash: Version,
                    r: Arrival, queued: Entries, e: Entry)
    requires WF(c.(name := pe), rlog) && FromRemote(pe, rlog, it) && !Waiting(t, it) && e in queued
    requires var sX, sY := RemoteSide(rlog, it), LocalSide(log, t, it.id);
      && sX != [] && sX[0].v == it.v && Classified(sX, sY, it, hash, r, queued)
      && forall k :: 0 <= k < |sY| && sY[k] !in log ==> exists j :: 0 <= j < |t| && t[j].n == sY[k] && Of(t[j], it.id)
    ensures e.l.Some? && e.c.None? ==> e.l.value in e.n.pa || Forwards(rlog, e.n, e.l.value) || Has(log, e.n.v)
  {
    hide WF, FromRemote, RemoteSide, LocalSide, Forwards, Decided, Told, RootIsAncestor, IsMeet;
    var sX, sY := RemoteSide(rlog, it), LocalSide(log, t, it.id);
    if r == Forward {
      if RootIsAncestor(sX, sY) {
        assert Has(sY, it.v) by { RootIsThere(sX, sY); }
        var k :| 0 <= k < |sY| && sY[k].v == it.v;
        assert sY[k] in log;
      } else {
        if sY[0].v == it.v {
          SameRoot(sX, sY);
        }
        QueuedForwards(c.(name := pe), rlog, rlog, sY, it);
      }
    }
  }

  lemma RootIsThere(s: seq<Item>, t: seq<Item>)
    requires RootIsAncestor(s, t)
    ensures Has(t, s[0].v)
  {
  }

  /** The batch of a confirmation in order is a proper one, so the steps above leave out none of them. */
  lemma InOrderIsBatched(c: Conf, s: State, obj: Ack)
    requires Base(c, s) && obj.pe in s.queues && InOrder(s, Confirm(obj))
    ensures Batched(c, s.log, s.queues[obj.pe], obj.n)
  {
    hide WF, Loop;
    var t := s.queues[obj.pe];
    forall k: nat | LastFoundAt(t, obj.n, k) ensures BatchFor(c, s.log, Loop(t, obj.n.id, k + 1).items) {
      FirstOfId(t, obj.n.id, k + 1);
      assert EntryOk(c, t[k]);
    }
  }

  /** Then a confirmation in order meets its condition. */
  lemma InOrderIsFine(c: Conf, s: State, e: Event, h: History)
    requires Kept(c, s, h) && OneHead(s.log) && InOrder(s, e)
    ensures Fine(c, s, e)
  {
    hide Base, OneHead, IsHeadOf, KeepsHead, EchoesFirst, QueueKept;
    if e.Confirm? && e.obj.pe in s.queues {
      forall head | IsHeadOf(s.log, e.obj.n.id, head) ensures KeepsHead(c.name, s.queues[e.obj.pe], head, e.obj, s.log) {
        FirstKeepsHead(c, s, e.obj, head, h);
      }
    }
  }

  lemma FirstKeepsHead(c: Conf, s: State, obj: Ack, head: Option<Version>, h: History)
    requires Kept(c, s, h) && OneHead(s.log) && obj.pe in s.queues
    requires InOrder(s, Confirm(obj)) && IsHeadOf(s.log, obj.n.id, head)
    ensures KeepsHead(c.name, s.queues[obj.pe], head, obj, s.log)
  {
    hide Kept, OneHead, IsHeadOf, EchoesFirst, Loop, Acceptable, GoesOn;
    var t := s.queues[obj.pe];
    if FitsHead(head, obj) && |obj.lcas| <= 1 {
      forall k: nat | LastFoundAt(t, obj.n, k) ensures TakesOn(c.name, t, head, obj.n.id, k, s.log) {
        FirstTakesOn(c, s, obj, head, k, h);
      }
    }
  }

  lemma FirstTakesOn(c: Conf, s: State, obj: Ack, head: Option<Version>, k: nat, h: History)
    requires Kept(c, s, h) && OneHead(s.log) && obj.pe in s.queues && IsHeadOf(s.log, obj.n.id, head)
    requires LastFoundAt(s.queues[obj.pe], obj.n, k) && FitsHead(head, obj)
    requires EchoesFirst(s.queues[obj.pe], obj, k) && obj.n.v !in s.loose
    ensures TakesOn(c.name, s.queues[obj.pe], head, obj.n.id, k, s.log)
  {
    hide OneHead, WF, IsHeadOf, Forwards, RankOk, AllMade, Ranked;
    var t, n := s.queues[obj.pe], s.queues[obj.pe][k].n;
    FirstOfId(t, obj.n.id, k + 1);
    OnlyItem(s.log, c.name, n);
    assert QueueKept(s, h, obj.pe) && EntryOk(c, t[k]);
    NewsOne(s.log, n);
    if Acceptable(s.log, c.name, [n], n) && !Has(s.log, n.v) {
      forall p | p in n.pa ensures HasOf(s.log, n.id, p) {
        assert HasOf(s.log, n.id, p) || (!Has(s.log, p) && Has([n], p));
      }
      if head.Some? && head.value !in n.pa {
        MadeRank(s.log, h);
        MadeRank(s.remotes[obj.pe], h);
        RemoteDistinct(c, s, obj.pe);
        ForwardNamesHead(c, s.log, s.remotes[obj.pe], h.rank, n, head.value);
      }
      OneGoesOn(n, head);
    }
  }

  lemma MadeRank(log: seq<Item>, h: History)
    requires AllMade(log, h)
    ensures RankOk(log, h.rank)
  {
  }

  lemma RemoteDistinct(c: Conf, s: State, pe: Name)
    requires Base(c, s) && pe in s.remotes
    ensures Distinct(s.remotes[pe])
  {
  }

  lemma OneGoesOn(n: Item, head: Option<Version>)
    requires head.Some? ==> head.value in n.pa
    ensures GoesOn([n], head)
  {
    assert [n][0] == n;
  }

  ghost predicate AllInOrder(ss: seq<State>, es: seq<Event>, h: History, n: nat) {
    forall k :: 0 <= k < n && k < |es| && k < |ss| ==> Timely(ss[k], es[k], h) && InOrder(ss[k], es[k])
  }

  /**
   * A run keeps one head per id, with nothing further to check, if versions are made after their
   * parents and every confirmation echoes the first waiting entry of its id, one that is without
   * conflict and was queued when its history could be merged.
   */
  lemma InOrderKeepsOneHead(c: Conf, ss: seq<State>, es: seq<Event>, h: History)
    requires IsRun(c, ss, es) && AllInOrder(ss, es, h, |es|)
    ensures AllOneHead(ss, |ss|)
  {
    hide Initial, Next, OneHead, Timely, InOrder, Kept;
    KeptUpTo(c, ss, es, h, |es|);
  }

  lemma {:induction false} KeptUpTo(c: Conf, ss: seq<State>, es: seq<Event>, h: History, n: nat)
    requires IsRun(c, ss, es) && n <= |es| && AllInOrder(ss, es, h, n)
    ensures Kept(c, ss[n], h) && AllOneHead(ss, n + 1)
  {
    hide Next, OneHead, Kept, Timely, InOrder, Base, Fine;
    if n == 0 {
      StartIsKept(c, ss[0], h);
    } else {
      KeptUpTo(c, ss, es, h, n - 1);
      InOrderIsFine(c, ss[n - 1], es[n - 1], h);
      KeptBase(c, ss[n - 1], h);
      StepKeepsHead(c, ss[n - 1], es[n - 1], ss[n]);
      StepKeeps(c, ss[n - 1], es[n - 1], ss[n], h);
    }
  }

  lemma KeptBase(c: Conf, s: State, h: History)
    requires Kept(c, s, h)
    ensures Base(c, s)
  {
  }

  lemma StartIsKept(c: Conf, s: State, h: History)
    requires Initial(c, s)
    ensures Kept(c, s, h) && OneHead(s.log)
  {
  }
}
