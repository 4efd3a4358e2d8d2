/**
 * Replication of one tree into the perspective tree of a remote: the sender appends, connections
 * come and go, items are delivered in order, and a new connection resumes after the last
 * version received.
 */
module Replication {
  import opened Items
  import opened Dag
  import opened Keys
  import opened Log
  import opened Stream
  import opened Tail
  import opened Export

  /** `sent` is the sender's log, `received` the receiver's, `conn` the sender's next position if connected. */
  datatype Net = Net(sent: seq<Item>, received: seq<Item>, conn: Option<nat>)

  datatype Event = Append(item: Item) | Connect | Deliver | Disconnect

  /** Export and import transforms, and the name of the receiving perspective tree. */
  datatype Link = Link(c: Conf, out: Transform, into: Transform, remote: Name) {
    ghost predicate Ok() {
      Keeps(out) && Keeps(into) && |remote| < 256
    }
  }

  /** Where the sender resumes: after the last received version, or at the beginning. */
  ghost function ResumeAt(n: Net): nat {
    if n.received == [] then 0
    else Pos(n.sent, n.received[|n.received| - 1].v) + 1
  }

  /** What the receiver makes of one position of the sender's log. */
  ghost function Arriving(l: Link, sent: seq<Item>, k: nat): Option<Item>
    requires l.Ok() && Ordered(sent) && k < |sent|
  {
    if l.out(sent[k]).None? then None else l.into(Incoming(ExportAt(sent, l.out, k), l.remote))
  }

  ghost function Step(l: Link, n: Net, e: Event): Net
    requires l.Ok() && Ordered(n.sent)
  {
    match e
    case Append(item) =>
      if WF(l.c, n.sent + [item]) then n.(sent := n.sent + [item]) else n
    case Connect =>
      n.(conn := Some(ResumeAt(n)))
    case Disconnect =>
      n.(conn := None)
    case Deliver =>
      if n.conn.None? || n.conn.value >= |n.sent| then n else
        var a := Arriving(l, n.sent, n.conn.value);
        if a.None? then n.(conn := Some(n.conn.value + 1))
        else if Acceptable(n.received, l.remote, [a.value], a.value) then
          n.(received := Appended(n.received, [a.value]), conn := Some(n.conn.value + 1))
        else n.(conn := None)
  }

  /** What arrives from the first `n` positions. */
  ghost function Imported(l: Link, sent: seq<Item>, n: nat): seq<Item>
    requires l.Ok() && Ordered(sent) && n <= |sent|
  {
    if n == 0 then [] else
      Imported(l, sent, n - 1) + match Arriving(l, sent, n - 1) case None => [] case Some(it) => [it]
  }

  /** The receiver holds exactly what arrived from the first `n` positions, in order and numbered. */
  ghost predicate Synced(l: Link, s: Net, n: nat) {
    l.Ok() && Ordered(s.sent) && n <= |s.sent| && s.received == Stamp(Imported(l, s.sent, n), 0)
  }

  ghost predicate Inv(l: Link, s: Net) {
    && l.Ok() && WF(l.c, s.sent) && Ordered(s.sent) && WF(l.c, s.received) && OneRoot(s.received)
    && (exists n :: Synced(l, s, n))
    && (s.conn.Some? ==> Synced(l, s, s.conn.value))
  }

  ghost function Run(l: Link, s: Net, events: seq<Event>): (r: Net)
    requires Inv(l, s)
    ensures Inv(l, r)
  {
    if events == [] then s else
      var p := Run(l, s, events[..|events| - 1]);
      StepKeepsInv(l, p, events[|events| - 1]);
      Step(l, p, events[|events| - 1])
  }

  const IDLE: Net := Net([], [], None)

  lemma IdleInv(l: Link)
    requires l.Ok()
    ensures Inv(l, IDLE)
  {
    assert Synced(l, IDLE, 0);
  }

  // ---- proofs ----

  lemma ArrivingVersion(l: Link, sent: seq<Item>, k: nat)
    requires l.Ok() && Ordered(sent) && k < |sent| && Arriving(l, sent, k).Some?
    ensures Arriving(l, sent, k).value.v == sent[k].v && Arriving(l, sent, k).value.id == sent[k].id
    ensures Arriving(l, sent, k).value.pa == ExportAt(sent, l.out, k).pa
  {
  }

  lemma {:induction false} ImportedVersions(l: Link, sent: seq<Item>, n: nat)
    requires l.Ok() && Ordered(sent) && n <= |sent|
    ensures forall j :: 0 <= j < |Imported(l, sent, n)| ==> Has(sent[..n], Imported(l, sent, n)[j].v)
  {
    if n > 0 {
      ImportedVersions(l, sent, n - 1);
      var I := Imported(l, sent, n - 1);
      forall j | 0 <= j < |I| ensures Has(sent[..n], I[j].v) {
        var k :| 0 <= k < |sent[..n - 1]| && sent[..n - 1][k].v == I[j].v;
        assert sent[..n][k].v == I[j].v;
      }
      if Arriving(l, sent, n - 1).Some? {
        ArrivingVersion(l, sent, n - 1);
        assert sent[..n][n - 1].v == sent[n - 1].v;
      }
    }
  }

  /** After the last arrival nothing more arrived, so resuming right behind it repeats and skips nothing. */
  lemma {:induction false} ResumePoint(l: Link, sent: seq<Item>, n: nat)
    requires l.Ok() && Ordered(sent) && Distinct(sent) && n <= |sent| && Imported(l, sent, n) != []
    ensures var I := Imported(l, sent, n);
      var k := Pos(sent, I[|I| - 1].v) + 1;
      k <= n && Imported(l, sent, k) == I
    decreases n
  {
    hide Ordered, Arriving;
    if Arriving(l, sent, n - 1).None? {
      ResumePoint(l, sent, n - 1);
    } else {
      ArrivingVersion(l, sent, n - 1);
      PosAt(sent, n - 1);
    }
  }

  lemma PosAt(log: seq<Item>, k: nat)
    requires Distinct(log) && k < |log|
    ensures Pos(log, log[k].v) == k
  {
    PosIs(log, log[k].v);
  }

  lemma SameArrival(l: Link, sent: seq<Item>, sent': seq<Item>, k: nat)
    requires l.Ok() && sent <= sent' && Distinct(sent') && Ordered(sent) && Ordered(sent') && k < |sent|
    ensures Arriving(l, sent, k) == Arriving(l, sent', k)
  {
    hide Distinct, ConnectedParents;
    assert sent[k] == sent'[k];
    if l.out(sent[k]).Some? {
      ConnectedGrows(sent, sent', l.out, sent[k].pa, k);
    }
  }

  lemma {:induction false} ImportedGrows(l: Link, sent: seq<Item>, sent': seq<Item>, n: nat)
    requires l.Ok() && sent <= sent' && Distinct(sent') && Ordered(sent) && Ordered(sent') && n <= |sent|
    ensures Imported(l, sent, n) == Imported(l, sent', n)
  {
    hide Distinct, Ordered, Arriving;
    if n > 0 {
      ImportedGrows(l, sent, sent', n - 1);
      SameArrival(l, sent, sent', n - 1);
    }
  }

  /** The next arrival has a version the receiver does not have yet. */
  lemma ArrivalIsNew(l: Link, s: Net, k: nat)
    requires Inv(l, s) && k < |s.sent| && Synced(l, s, k) && Arriving(l, s.sent, k).Some?
    ensures !Has(s.received, Arriving(l, s.sent, k).value.v)
  {
    hide Ordered, Imported, WF;
    ImportedVersions(l, s.sent, k);
    ArrivingVersion(l, s.sent, k);
    var I := Imported(l, s.sent, k);
    forall j | 0 <= j < |s.received| ensures s.received[j].v != s.sent[k].v {
      var m :| 0 <= m < |s.sent[..k]| && s.sent[..k][m].v == I[j].v;
      SentDistinct(l.c, s.sent, m, k);
    }
  }

  lemma SentDistinct(c: Conf, log: seq<Item>, m: nat, k: nat)
    requires WF(c, log) && m < k < |log|
    ensures log[m].v != log[k].v
  {
  }

  lemma DeliverSynced(l: Link, s: Net, k: nat, it: Item)
    requires Inv(l, s) && k < |s.sent| && Synced(l, s, k) && Arriving(l, s.sent, k) == Some(it)
    requires Acceptable(s.received, l.remote, [it], it)
    ensures Appended(s.received, [it]) == Stamp(Imported(l, s.sent, k + 1), 0)
  {
    ArrivalIsNew(l, s, k);
    hide WF, Ordered, Acceptable, Arriving;
    AppendOne(Imported(l, s.sent, k), it);
  }

  lemma AppendOne(I: seq<Item>, it: Item)
    requires !Has(Stamp(I, 0), it.v)
    ensures Appended(Stamp(I, 0), [it]) == Stamp(I + [it], 0)
  {
    var S := Stamp(I, 0);
    assert News(S, [it]) == [it] by { assert [it][..0] == []; }
    assert LastI(S) == |I|;
    assert Stamp([it], |I|) == [it.(i := Some(|I| + 1))];
    hide Has, News, LastI;
    assert Stamp(I + [it], 0) == S + [it.(i := Some(|I| + 1))];
  }

  /** Every step keeps the receiver a faithful prefix. */
  lemma StepKeepsInv(l: Link, s: Net, e: Event)
    requires Inv(l, s)
    ensures Inv(l, Step(l, s, e))
  {
    hide WF, Ordered, OneRoot, Acceptable, Appended, Imported, Stamp, Pos;
    var t := Step(l, s, e);
    var n :| Synced(l, s, n);
    match e
    case Append(item) =>
      if WF(l.c, s.sent + [item]) {
        AppendKeeps(l, s, item, n);
        if s.conn.Some? { AppendKeeps(l, s, item, s.conn.value); }
      }
    case Connect =>
      ConnectSynced(l, s, n);
    case Disconnect =>
      assert Synced(l, t, n);
    case Deliver =>
      if s.conn.Some? && s.conn.value < |s.sent| {
        DeliverKeeps(l, s, s.conn.value);
      }
  }

  lemma AppendKeeps(l: Link, s: Net, item: Item, n: nat)
    requires Inv(l, s) && Synced(l, s, n) && WF(l.c, s.sent + [item])
    ensures Synced(l, s.(sent := s.sent + [item]), n) && Ordered(s.sent + [item])
  {
    WFOrdered(l.c, s.sent + [item]);
    ImportedGrows(l, s.sent, s.sent + [item], n);
  }

  lemma ConnectSynced(l: Link, s: Net, n: nat)
    requires l.Ok() && WF(l.c, s.sent) && Synced(l, s, n)
    ensures Synced(l, s.(conn := Some(ResumeAt(s))), ResumeAt(s))
  {
    hide WF, Ordered, Distinct, Stamp, Imported, Pos;
    WFOrdered(l.c, s.sent);
    var I := Imported(l, s.sent, n);
    if s.received == [] {
      NothingImported(l, s.sent);
    } else {
      LastReceived(s.received, I);
      ResumePoint(l, s.sent, n);
    }
  }

  lemma LastReceived(received: seq<Item>, I: seq<Item>)
    requires received == Stamp(I, 0) && received != []
    ensures |I| == |received| && received[|received| - 1].v == I[|I| - 1].v
  {
  }

  lemma NothingImported(l: Link, sent: seq<Item>)
    requires l.Ok() && Ordered(sent)
    ensures Stamp(Imported(l, sent, 0), 0) == []
  {
  }

  lemma NextImported(l: Link, sent: seq<Item>, k: nat)
    requires l.Ok() && Ordered(sent) && k < |sent| && Arriving(l, sent, k).None?
    ensures Imported(l, sent, k + 1) == Imported(l, sent, k)
  {
  }

  lemma DeliverKeeps(l: Link, s: Net, k: nat)
    requires Inv(l, s) && s.conn == Some(k) && k < |s.sent|
    ensures Inv(l, Step(l, s, Deliver))
  {
    hide WF, Ordered, OneRoot, Acceptable, Appended, Stamp, Arriving, Imported, Distinct;
    var t := Step(l, s, Deliver);
    var a := Arriving(l, s.sent, k);
    if a.None? {
      NextImported(l, s.sent, k);
      assert Synced(l, t, k + 1);
    } else if Acceptable(s.received, l.remote, [a.value], a.value) {
      DeliverSynced(l, s, k, a.value);
      StoredWF(l, s, k, a.value);
      assert Synced(l, t, k + 1);
    } else {
      assert Synced(l, t, k);
    }
  }

  // ---- what the receiver accepts ----

  /** An arriving item fits the keys of the receiver, and its parents are sent before it. */
  lemma ArrivingFits(l: Link, sent: seq<Item>, k: nat)
    requires l.Ok() && WF(l.c, sent) && Ordered(sent) && k < |sent| && Arriving(l, sent, k).Some?
    ensures var it := Arriving(l, sent, k).value;
      && Fitting(l.c, it)
      && forall p :: p in it.pa ==> Pos(sent, p) < k && sent[Pos(sent, p)].v == p && sent[Pos(sent, p)].id == it.id && p != it.v
  {
    WFOrdered(l.c, sent);
    ArrivingVersion(l, sent, k);
    var it := Arriving(l, sent, k).value;
    SentFits(l.c, sent, k);
    forall p | p in it.pa
      ensures Pos(sent, p) < k && sent[Pos(sent, p)].v == p && sent[Pos(sent, p)].id == it.id
      ensures p != it.v && |p.bytes| == l.c.vSize
    {
      ParentSent(l, sent, k, p);
    }
  }

  lemma SentFits(c: Conf, sent: seq<Item>, k: nat)
    requires WF(c, sent) && k < |sent|
    ensures Fitting(c, sent[k])
  {
  }

  lemma ParentSent(l: Link, sent: seq<Item>, k: nat, p: Version)
    requires l.Ok() && WF(l.c, sent) && Ordered(sent) && Distinct(sent) && k < |sent| && l.out(sent[k]).Some?
    requires p in ExportAt(sent, l.out, k).pa
    ensures Pos(sent, p) < k && sent[Pos(sent, p)].v == p && sent[Pos(sent, p)].id == sent[k].id
    ensures p != sent[k].v && |p.bytes| == l.c.vSize
  {
    hide Ordered, WF, Nearest, ConnectedParents, Distinct;
    ParentsAreNearest(sent, l.out, k, p);
    var q := NearestBefore(l.c, sent, l.out, k, p);
    PosAt(sent, q);
    SentDistinct(l.c, sent, q, k);
    SentFits(l.c, sent, q);
  }

  lemma StoredWF(l: Link, s: Net, k: nat, it: Item)
    requires Inv(l, s) && k < |s.sent| && Arriving(l, s.sent, k) == Some(it)
    requires Acceptable(s.received, l.remote, [it], it)
    ensures WF(l.c, Appended(s.received, [it])) && OneRoot(Appended(s.received, [it]))
  {
    ArrivingFits(l, s.sent, k);
    assert it.v !in it.pa;
    AcceptedAlone(l.c, l.remote, s.received, it);
  }

  lemma AcceptedAlone(c: Conf, name: Name, log: seq<Item>, it: Item)
    requires WF(c, log) && Fitting(c, it) && it.v !in it.pa && Acceptable(log, name, [it], it)
    ensures WF(c, Appended(log, [it])) && (OneRoot(log) ==> OneRoot(Appended(log, [it])))
  {
    hide Acceptable, Linked, Distinct, Numbered, OneRoot;
    var own := c.(name := name);
    assert WF(own, log) && BatchFor(own, log, [it]);
    AppendWF(own, log, [it], 1);
    assert [it][..1] == [it];
    if OneRoot(log) {
      RootsAfter(own, log, [it]);
    }
    assert WF(own, Appended(log, [it])) ==> WF(c, Appended(log, [it]));
  }

  /** What has arrived is what some position brought. */
  lemma {:induction false} ImportedAre(l: Link, sent: seq<Item>, n: nat, it: Item)
    requires l.Ok() && Ordered(sent) && n <= |sent|
    ensures it in Imported(l, sent, n) <==> exists k :: 0 <= k < n && Arriving(l, sent, k) == Some(it)
  {
    hide Ordered, Arriving;
    if n > 0 {
      ImportedAre(l, sent, n - 1, it);
    }
  }

  /**
   * The arriving item finds what it needs: all its parents arrive too, and as a root it is the first
   * item of its id to arrive. Both are told by the sender's log and the two sets of rules alone.
   */
  ghost predicate Welcome(l: Link, sent: seq<Item>, k: nat)
    requires l.Ok() && Ordered(sent) && k < |sent|
  {
    Arriving(l, sent, k).Some? ==>
      && (Arriving(l, sent, k).value.pa == [] ==>
            forall j :: 0 <= j < k && Arriving(l, sent, j).Some? ==> sent[j].id != sent[k].id)
      && (forall p :: p in Arriving(l, sent, k).value.pa ==> Pos(sent, p) < |sent| && Arriving(l, sent, Pos(sent, p)).Some?)
  }

  /** The item came from one of the first `k` positions. */
  ghost predicate Brought(l: Link, sent: seq<Item>, k: nat, it: Item)
    requires l.Ok() && Ordered(sent) && k <= |sent|
  {
    exists j :: 0 <= j < k && Arriving(l, sent, j).Some? && it.v == sent[j].v && it.id == sent[j].id
  }

  /** What the receiving tree holds of the positions delivered. */
  lemma ReceivedAre(l: Link, s: Net, k: nat)
    requires l.Ok() && WF(l.c, s.sent) && Synced(l, s, k)
    ensures forall j :: 0 <= j < k && Arriving(l, s.sent, j).Some? ==> HasOf(s.received, s.sent[j].id, s.sent[j].v)
    ensures forall x :: 0 <= x < |s.received| ==> Brought(l, s.sent, k, s.received[x])
  {
    hide WF, Ordered, Arriving, Imported;
    var I := Imported(l, s.sent, k);
    forall j | 0 <= j < k && Arriving(l, s.sent, j).Some? ensures HasOf(s.received, s.sent[j].id, s.sent[j].v) {
      var it := Arriving(l, s.sent, j).value;
      ImportedAre(l, s.sent, k, it);
      ArrivingVersion(l, s.sent, j);
      var x :| 0 <= x < |I| && I[x] == it;
      assert s.received[x].v == it.v && s.received[x].id == it.id;
    }
    forall x | 0 <= x < |s.received| ensures Brought(l, s.sent, k, s.received[x]) {
      ImportedAre(l, s.sent, k, I[x]);
      var j :| 0 <= j < k && Arriving(l, s.sent, j) == Some(I[x]);
      ArrivingVersion(l, s.sent, j);
      assert s.received[x].v == I[x].v && s.received[x].id == I[x].id;
    }
  }

  /** Whatever the rules, an arriving item is accepted exactly when it is welcome. */
  lemma AcceptedIffWelcome(l: Link, s: Net, k: nat, it: Item)
    requires Inv(l, s) && Synced(l, s, k) && k < |s.sent| && Arriving(l, s.sent, k) == Some(it)
    ensures Acceptable(s.received, l.remote, [it], it) <==> Welcome(l, s.sent, k)
  {
    ArrivalIsNew(l, s, k);
    ArrivingFits(l, s.sent, k);
    ReceivedAre(l, s, k);
    ArrivingVersion(l, s.sent, k);
    WFOrdered(l.c, s.sent);
    hide WF, Ordered, Arriving, Imported, Stamp, Distinct, Fitting, Pos;
    forall v | HasOf(s.received, it.id, v) ensures Has(s.received, v) {
    }
    forall p | p in it.pa
      ensures HasOf(s.received, it.id, p) || (!Has(s.received, p) && Has([it], p)) <==> Arriving(l, s.sent, Pos(s.sent, p)).Some?
    {
      ParentArrived(l, s, k, it, p);
    }
    RootArrives(l, s, k, it);
  }

  lemma ParentArrived(l: Link, s: Net, k: nat, it: Item, p: Version)
    requires l.Ok() && Ordered(s.sent) && Distinct(s.sent) && k < |s.sent|
    requires Pos(s.sent, p) < k && s.sent[Pos(s.sent, p)].v == p && s.sent[Pos(s.sent, p)].id == it.id && p != it.v
    requires forall j :: 0 <= j < k && Arriving(l, s.sent, j).Some? ==> HasOf(s.received, s.sent[j].id, s.sent[j].v)
    requires forall x :: 0 <= x < |s.received| ==> Brought(l, s.sent, k, s.received[x])
    ensures HasOf(s.received, it.id, p) || (!Has(s.received, p) && Has([it], p)) <==> Arriving(l, s.sent, Pos(s.sent, p)).Some?
  {
    hide Ordered, Arriving, Pos;
    if HasOf(s.received, it.id, p) {
      var x :| 0 <= x < |s.received| && s.received[x].id == it.id && s.received[x].v == p;
      var j :| 0 <= j < k && Arriving(l, s.sent, j).Some? && s.received[x].v == s.sent[j].v;
      assert j == Pos(s.sent, p);
    }
  }

  lemma RootArrives(l: Link, s: Net, k: nat, it: Item)
    requires l.Ok() && Ordered(s.sent) && k < |s.sent| && it.id == s.sent[k].id
    requires forall j :: 0 <= j < k && Arriving(l, s.sent, j).Some? ==> HasOf(s.received, s.sent[j].id, s.sent[j].v)
    requires forall x :: 0 <= x < |s.received| ==> Brought(l, s.sent, k, s.received[x])
    ensures !HasId(s.received, it.id) <==>
            forall j :: 0 <= j < k && Arriving(l, s.sent, j).Some? ==> s.sent[j].id != s.sent[k].id
  {
    hide Ordered, Arriving;
    forall j | 0 <= j < k && Arriving(l, s.sent, j).Some? && s.sent[j].id == it.id ensures HasId(s.received, it.id) {
      var x :| 0 <= x < |s.received| && s.received[x].id == s.sent[j].id && s.received[x].v == s.sent[j].v;
    }
    if HasId(s.received, it.id) {
      var x :| 0 <= x < |s.received| && s.received[x].id == it.id;
      var j :| 0 <= j < k && Arriving(l, s.sent, j).Some? && s.received[x].id == s.sent[j].id;
    }
  }

  // ---- what each event does ----

  /** An item that fits the log is added at its end; any other leaves everything as it was. */
  lemma AppendAdds(l: Link, s: Net, item: Item)
    requires Inv(l, s)
    ensures Step(l, s, Append(item)) ==
            Net(s.sent + if WF(l.c, s.sent + [item]) then [item] else [], s.received, s.conn)
  {
  }

  /**
   * A connection opens where a reader would go on that starts behind the last version received: what it
   * is to pass on is what the position has before it.
   */
  lemma ConnectOpens(l: Link, s: Net)
    requires Inv(l, s)
    ensures var t, last := Step(l, s, Connect), Last(s.received);
      && t.sent == s.sent && t.received == s.received && (last.Some? ==> Has(s.sent, last.value))
      && t.conn.Some? && t.conn.value <= |s.sent| && s.sent[t.conn.value..] == Goal(s.sent, From(None, last, last.Some?))
  {
    hide WF, Synced, Goal, ResumeAt, Has;
    var n :| Synced(l, s, n);
    ReaderResumes(l, s, n);
  }

  lemma DisconnectCloses(l: Link, s: Net)
    requires Inv(l, s)
    ensures Step(l, s, Disconnect) == Net(s.sent, s.received, None)
  {
  }

  /**
   * Over any run of appends, connects, deliveries and disconnects the receiver holds what arrived
   * from a prefix of the sender's log: no gap, no repetition, no reordering.
   */
  lemma ReceiverIsPrefix(l: Link, events: seq<Event>)
    requires l.Ok()
    ensures Inv(l, IDLE) && exists n :: Synced(l, Run(l, IDLE, events), n)
  {
    IdleInv(l);
    var r := Run(l, IDLE, events);
    var n :| Synced(l, r, n);
  }

  ghost predicate Transparent(l: Link) {
    forall it :: l.into(it) == Some(it)
  }

  /** Without import rules, the receiver holds exactly the export of a prefix of the sender's log. */
  lemma {:induction false} ImportedIsExported(l: Link, sent: seq<Item>, n: nat)
    requires l.Ok() && Ordered(sent) && n <= |sent| && Transparent(l)
    ensures Stamp(Imported(l, sent, n), 0) == Received(ExportUpTo(sent, l.out, n), l.remote)
  {
    if n > 0 {
      ImportedIsExported(l, sent, n - 1);
      var I, E := Imported(l, sent, n - 1), ExportUpTo(sent, l.out, n - 1);
      assert |I| == |Stamp(I, 0)| == |Received(E, l.remote)| == |E|;
      if l.out(sent[n - 1]).Some? {
        var e := ExportAt(sent, l.out, n - 1);
        assert Stamp(I + [Incoming(e, l.remote)], 0) == Stamp(I, 0) + Stamp([Incoming(e, l.remote)], |I|);
        assert Received(E + [e], l.remote) == Received(E, l.remote) + Stamp([Incoming(e, l.remote)], |E|);
      }
    }
  }

  /** The last version a receiving tree reports, and so what it asks to continue after. */
  function Last(received: seq<Item>): Option<Version> {
    if received == [] then None else Some(received[|received| - 1].v)
  }

  /**
   * Resuming at a position is what a following reader does that starts after the last version
   * received. The sender has that version, so the reader never gets stuck.
   */
  lemma ReaderResumes(l: Link, s: Net, n: nat)
    requires l.Ok() && WF(l.c, s.sent) && Synced(l, s, n)
    ensures var last := Last(s.received);
      && (last.Some? ==> Has(s.sent, last.value))
      && ResumeAt(s) <= |s.sent| && Goal(s.sent, From(None, last, last.Some?)) == s.sent[ResumeAt(s)..]
  {
    hide WF, Ordered, Stamp, Imported, Has, Wanted;
    WFOrdered(l.c, s.sent);
    if s.received != [] {
      LastReceived(s.received, Imported(l, s.sent, n));
      ResumePoint(l, s.sent, n);
      PosIs(s.sent, s.received[|s.received| - 1].v);
    }
    var o := From(None, Last(s.received), Last(s.received).Some?);
    GoalIs(s.sent, o);
    WantedIsSlice(s.sent, o);
  }

  /** A delivery goes through exactly when the item is welcome; a refusal ends the connection and stores nothing. */
  lemma Delivered(l: Link, s: Net, k: nat)
    requires Inv(l, s) && s.conn == Some(k) && k < |s.sent|
    ensures var t := Step(l, s, Deliver);
      && t.sent == s.sent && t.conn == (if Welcome(l, s.sent, k) then Some(k + 1) else None)
      && t.received == if Welcome(l, s.sent, k) then Stamp(Imported(l, s.sent, k + 1), 0) else s.received
  {
    hide Inv, Synced, Acceptable, Arriving, Appended, Imported, Stamp, Welcome;
    InvParts(l, s, k);
    if Arriving(l, s.sent, k).Some? {
      AcceptedIffWelcome(l, s, k, Arriving(l, s.sent, k).value);
    } else {
      DroppedIsWelcome(l, s.sent, k);
    }
    StepKeepsInv(l, s, Deliver);
    if Welcome(l, s.sent, k) {
      InvParts(l, Step(l, s, Deliver), k + 1);
      SyncedIs(l, Step(l, s, Deliver), k + 1);
    }
  }

  lemma DroppedIsWelcome(l: Link, sent: seq<Item>, k: nat)
    requires l.Ok() && Ordered(sent) && k < |sent| && Arriving(l, sent, k).None?
    ensures Welcome(l, sent, k)
  {
  }

  lemma SyncedIs(l: Link, s: Net, n: nat)
    requires Synced(l, s, n)
    ensures l.Ok() && Ordered(s.sent) && n <= |s.sent| && s.received == Stamp(Imported(l, s.sent, n), 0)
  {
  }

  lemma InvParts(l: Link, s: Net, k: nat)
    requires Inv(l, s) && s.conn == Some(k)
    ensures l.Ok() && Ordered(s.sent) && Synced(l, s, k)
  {
  }

  /** With no connection, or nothing left to send, a delivery does nothing. */
  lemma Idles(l: Link, s: Net)
    requires Inv(l, s) && (s.conn == None || s.conn == Some(|s.sent|))
    ensures Step(l, s, Deliver) == s
  {
  }

  function Deliveries(m: nat): (es: seq<Event>)
    ensures |es| == m && forall k :: 0 <= k < m ==> es[k] == Deliver
  {
    seq(m, _ => Deliver)
  }

  /** Everything from `k` to `q` has been sent exactly when all of it was welcome; else the connection is closed. */
  ghost predicate Carried(l: Link, sent: seq<Item>, k: nat, q: nat, r: Net)
    requires l.Ok() && Ordered(sent) && q <= |sent|
  {
    && r.sent == sent && (r.conn == Some(q) || r.conn == None)
    && (r.conn == Some(q) <==> forall j :: k <= j < q ==> Welcome(l, sent, j))
  }

  function Least(a: nat, b: nat): (r: nat)
    ensures r <= a && r <= b && (r == a || r == b)
  {
    if a < b then a else b
  }

  /** A connection that stays up delivers everything exactly when all that is still to come is welcome. */
  lemma {:induction false} DeliversAll(l: Link, s: Net, k: nat, m: nat)
    requires Inv(l, s) && s.conn == Some(k)
    ensures l.Ok() && Ordered(s.sent) && k <= |s.sent|
    ensures Carried(l, s.sent, k, Least(k + m, |s.sent|), Run(l, s, Deliveries(m)))
  {
    hide Step, Inv, Run, Synced, Ordered, Carried, Least;
    InvParts(l, s, k);
    SyncedIs(l, s, k);
    if m == 0 {
      RunOne(l, s, [], Deliver);
      assert Deliveries(0) == [];
      NothingCarried(l, s, k);
    } else {
      DeliversAll(l, s, k, m - 1);
      RunOne(l, s, Deliveries(m - 1), Deliver);
      assert Deliveries(m - 1) + [Deliver] == Deliveries(m);
      OneMoreCarried(l, s.sent, k, m, Run(l, s, Deliveries(m - 1)));
    }
  }

  lemma NothingCarried(l: Link, s: Net, k: nat)
    requires l.Ok() && Ordered(s.sent) && k <= |s.sent| && s.conn == Some(k)
    ensures Carried(l, s.sent, k, Least(k + 0, |s.sent|), s)
  {
  }

  lemma OneMoreCarried(l: Link, sent: seq<Item>, k: nat, m: nat, r: Net)
    requires m > 0 && k <= |sent| && Inv(l, r) && l.Ok() && Ordered(sent)
    requires Carried(l, sent, k, Least(k + m - 1, |sent|), r)
    ensures Ordered(r.sent) && Carried(l, sent, k, Least(k + m, |sent|), Step(l, r, Deliver))
  {
    hide Step, Inv, Welcome, Ordered;
    if r.conn.Some? && k + m <= |sent| {
      Delivered(l, r, k + m - 1);
    } else {
      Idles(l, r);
    }
  }

  /** All that has been delivered was welcome. */
  lemma SyncedIsWelcome(l: Link, s: Net, n: nat, k: nat)
    requires Inv(l, s) && Synced(l, s, n) && k < n
    ensures Welcome(l, s.sent, k)
  {
    hide WF, Stamp, Acceptable;
    if Arriving(l, s.sent, k).Some? {
      WFOrdered(l.c, s.sent);
      var at := ImportOrder(l, s.sent, n);
      ArrivingFits(l, s.sent, k);
      StampedAre(Imported(l, s.sent, n), s.received);
      ReceivedRoots(l, s, at, k);
      ReceivedParents(l, s, at, k);
    }
  }

  /** Without import rules, everything is welcome exactly when no id has two entry points. */
  lemma AllWelcome(l: Link, sent: seq<Item>)
    requires l.Ok() && WF(l.c, sent) && Ordered(sent) && Transparent(l)
    ensures (forall k :: 0 <= k < |sent| ==> Welcome(l, sent, k)) <==> OneEntry(sent, l.out)
  {
    hide WF, Ordered, Keeps, Welcome, Transparent, OneEntry, HasPassingAncestor, Arriving;
    if forall k :: 0 <= k < |sent| ==> Welcome(l, sent, k) {
      forall j, k | 0 <= j < k < |sent| && sent[j].id == sent[k].id && l.out(sent[j]).Some? && l.out(sent[k]).Some?
        ensures HasPassingAncestor(sent, l.out, sent[k].v)
      {
        SecondEntry(l, sent, j, k);
      }
      assert OneEntry(sent, l.out) by { OneEntryIs(sent, l.out); }
    }
    if OneEntry(sent, l.out) {
      forall k | 0 <= k < |sent| ensures Welcome(l, sent, k) {
        EntryIsWelcome(l, sent, k);
      }
    }
  }

  lemma OneEntryIs(sent: seq<Item>, f: Transform)
    ensures OneEntry(sent, f) <==>
            forall j, k :: 0 <= j < k < |sent| && sent[j].id == sent[k].id && f(sent[j]).Some? && f(sent[k]).Some? ==>
              HasPassingAncestor(sent, f, sent[k].v)
  {
    hide HasPassingAncestor;
  }

  lemma SecondEntry(l: Link, sent: seq<Item>, j: nat, k: nat)
    requires l.Ok() && WF(l.c, sent) && Ordered(sent) && Transparent(l) && j < k < |sent| && Welcome(l, sent, k)
    requires sent[j].id == sent[k].id && l.out(sent[j]).Some? && l.out(sent[k]).Some?
    ensures HasPassingAncestor(sent, l.out, sent[k].v)
  {
    hide WF, Ordered, HasPassingAncestor, ConnectedParents;
    NoParentsIff(l.c, sent, l.out, k);
    assert Arriving(l, sent, j).Some? && Arriving(l, sent, k).Some?;
    ArrivingVersion(l, sent, k);
  }

  lemma EntryIsWelcome(l: Link, sent: seq<Item>, k: nat)
    requires l.Ok() && WF(l.c, sent) && Ordered(sent) && k < |sent| && Transparent(l) && OneEntry(sent, l.out)
    ensures Welcome(l, sent, k)
  {
    if Arriving(l, sent, k).Some? {
      WFOrdered(l.c, sent);
      ArrivingFits(l, sent, k);
      var it := Arriving(l, sent, k).value;
      forall p | p in it.pa ensures Arriving(l, sent, Pos(sent, p)).Some? {
        ParentPasses(l, sent, k, p);
      }
      NoParentsIff(l.c, sent, l.out, k);
    }
  }

  lemma ParentPasses(l: Link, sent: seq<Item>, k: nat, p: Version)
    requires l.Ok() && WF(l.c, sent) && Ordered(sent) && Distinct(sent) && k < |sent| && l.out(sent[k]).Some?
    requires p in ExportAt(sent, l.out, k).pa
    ensures Pos(sent, p) < |sent| && l.out(sent[Pos(sent, p)]).Some?
  {
    hide Ordered, WF, Nearest, ConnectedParents, Distinct;
    ParentsAreNearest(sent, l.out, k, p);
    var q := NearestBefore(l.c, sent, l.out, k, p);
    PosAt(sent, q);
  }

  // ---- what the receiver holds ----

  /** The positions that something arrived from. */
  lemma {:induction false} ImportOrder(l: Link, sent: seq<Item>, n: nat) returns (at: seq<nat>)
    requires l.Ok() && Ordered(sent) && n <= |sent|
    ensures var I := Imported(l, sent, n);
      && |at| == |I| && (forall i, j :: 0 <= i < j < |at| ==> at[i] < at[j])
      && (forall j :: 0 <= j < |at| ==> at[j] < n && Arriving(l, sent, at[j]) == Some(I[j]))
      && (forall k :: 0 <= k < n && Arriving(l, sent, k).Some? ==> k in at)
  {
    hide Ordered, Arriving;
    if n == 0 {
      at := [];
    } else {
      at := ImportOrder(l, sent, n - 1);
      if Arriving(l, sent, n - 1).Some? {
        Put(at, n - 1);
        at := at + [n - 1];
      }
    }
  }

  /** What is stored for the position: what the receiver's rules made of what was sent for it. */
  ghost predicate StoredFor(l: Link, sent: seq<Item>, k: nat, r: Item)
    requires k < |sent|
  {
    r.pe == Some(l.remote) && exists e ::
      SentFor(sent, l.out, k, e) && l.into(Incoming(e, l.remote)).Some? && r == l.into(Incoming(e, l.remote)).value.(i := r.i)
  }

  /** Nothing is stored for the position: it was not sent, or the receiver's rules dropped it. */
  ghost predicate DroppedFor(l: Link, sent: seq<Item>, k: nat)
    requires k < |sent|
  {
    l.out(sent[k]).None? || exists e :: SentFor(sent, l.out, k, e) && l.into(Incoming(e, l.remote)).None?
  }

  lemma ArrivingIs(l: Link, sent: seq<Item>, k: nat)
    requires l.Ok() && Ordered(sent) && Distinct(sent) && k < |sent|
    ensures if Arriving(l, sent, k).Some? then StoredFor(l, sent, k, Arriving(l, sent, k).value) else DroppedFor(l, sent, k)
  {
    hide Ordered, Distinct, SentFor;
    if l.out(sent[k]).Some? {
      SentAt(sent, l.out, k);
      assert SentFor(sent, l.out, k, ExportAt(sent, l.out, k));
    }
  }

  /**
   * What the receiver holds after the first `n` positions: for each position, in order, what the rules of
   * both sides make of the item there, numbered from one, and nothing for a position they drop.
   */
  lemma ReceiverHolds(l: Link, s: Net, n: nat) returns (at: seq<nat>)
    requires Inv(l, s) && Synced(l, s, n)
    ensures |at| == |s.received| && forall i, j :: 0 <= i < j < |at| ==> at[i] < at[j]
    ensures forall j :: 0 <= j < |at| ==>
              at[j] < n && s.received[j].i == Some(j + 1) && StoredFor(l, s.sent, at[j], s.received[j])
    ensures forall k :: 0 <= k < n && k !in at ==> DroppedFor(l, s.sent, k)
  {
    hide WF, Stamp, Ordered, Arriving, Imported, StoredFor, DroppedFor;
    WFOrdered(l.c, s.sent);
    at := ImportOrder(l, s.sent, n);
    StampedAre(Imported(l, s.sent, n), s.received);
    forall j | 0 <= j < |at| ensures StoredFor(l, s.sent, at[j], s.received[j]) {
      ArrivingIs(l, s.sent, at[j]);
      StoredStamped(l, s.sent, at[j], Imported(l, s.sent, n)[j], s.received[j]);
    }
    forall k | 0 <= k < n && k !in at ensures DroppedFor(l, s.sent, k) {
      ArrivingIs(l, s.sent, k);
    }
  }

  lemma StampedAre(I: seq<Item>, received: seq<Item>)
    requires received == Stamp(I, 0)
    ensures |received| == |I| && forall j :: 0 <= j < |I| ==> received[j] == I[j].(i := Some(j + 1))
  {
  }

  lemma StoredStamped(l: Link, sent: seq<Item>, k: nat, it: Item, r: Item)
    requires k < |sent| && StoredFor(l, sent, k, it) && r == it.(i := r.i)
    ensures StoredFor(l, sent, k, r)
  {
  }

  /** Without import rules, each item has the flags and the document that the sender's rules gave it. */
  lemma DocumentsArrive(l: Link, s: Net, n: nat) returns (at: seq<nat>)
    requires Inv(l, s) && Synced(l, s, n) && Transparent(l)
    ensures |at| == |s.received| && forall i, j :: 0 <= i < j < |at| ==> at[i] < at[j]
    ensures forall j :: 0 <= j < |at| ==> at[j] < n && SentFor(s.sent, l.out, at[j], s.received[j].(pe := None, i := None))
    ensures forall k :: 0 <= k < n && l.out(s.sent[k]).Some? ==> k in at
  {
    hide Inv, Synced, SentFor;
    InvBounds(l, s, n);
    at := ReceiverHolds(l, s, n);
    forall j | 0 <= j < |at| ensures SentFor(s.sent, l.out, at[j], s.received[j].(pe := None, i := None)) {
      var r := s.received[j];
      var e :| SentFor(s.sent, l.out, at[j], e) && r == l.into(Incoming(e, l.remote)).value.(i := r.i);
      SentPlain(s.sent, l.out, at[j], e);
      assert r.(pe := None, i := None) == e;
    }
  }

  lemma InvBounds(l: Link, s: Net, n: nat)
    requires Inv(l, s) && Synced(l, s, n)
    ensures n <= |s.sent|
  {
  }

  lemma SentPlain(sent: seq<Item>, f: Transform, k: nat, e: Item)
    requires k < |sent| && SentFor(sent, f, k, e)
    ensures e.pe == None && e.i == None
  {
  }

  // ---- catching up ----

  lemma ReceivedRoots(l: Link, s: Net, at: seq<nat>, k: nat)
    requires l.Ok() && Ordered(s.sent) && k < |s.sent| && k in at && |at| == |s.received| && OneRoot(s.received)
    requires forall i, j :: 0 <= i < j < |at| ==> at[i] < at[j]
    requires forall j :: 0 <= j < |at| ==> at[j] < |s.sent| && Arriving(l, s.sent, at[j]).Some?
    requires forall j :: 0 <= j < |at| ==> s.received[j] == Arriving(l, s.sent, at[j]).value.(i := Some(j + 1))
    requires forall j :: 0 <= j < k && Arriving(l, s.sent, j).Some? ==> j in at
    ensures Arriving(l, s.sent, k).Some?
    ensures Arriving(l, s.sent, k).value.pa == [] ==>
              forall j :: 0 <= j < k && Arriving(l, s.sent, j).Some? ==> s.sent[j].id != s.sent[k].id
  {
    hide Ordered, Arriving;
    var y :| 0 <= y < |at| && at[y] == k;
    if Arriving(l, s.sent, k).value.pa == [] {
      forall j | 0 <= j < k && Arriving(l, s.sent, j).Some? ensures s.sent[j].id != s.sent[k].id {
        var x :| 0 <= x < |at| && at[x] == j;
        ArrivingVersion(l, s.sent, j);
        ArrivingVersion(l, s.sent, k);
        assert x < y;
      }
    }
  }

  lemma ReceivedParents(l: Link, s: Net, at: seq<nat>, k: nat)
    requires l.Ok() && Ordered(s.sent) && k < |s.sent| && k in at && |at| == |s.received| && WF(l.c, s.received)
    requires forall j :: 0 <= j < |at| ==> at[j] < |s.sent| && Arriving(l, s.sent, at[j]).Some?
    requires forall j :: 0 <= j < |at| ==> s.received[j] == Arriving(l, s.sent, at[j]).value.(i := Some(j + 1))
    requires Distinct(s.sent)
    ensures Arriving(l, s.sent, k).Some?
    ensures forall p :: p in Arriving(l, s.sent, k).value.pa ==>
              Pos(s.sent, p) < |s.sent| && Arriving(l, s.sent, Pos(s.sent, p)).Some?
  {
    hide Ordered, Arriving, Fitting, Numbered, Distinct, Pos;
    var y :| 0 <= y < |at| && at[y] == k;
    forall p | p in Arriving(l, s.sent, k).value.pa
      ensures Pos(s.sent, p) < |s.sent| && Arriving(l, s.sent, Pos(s.sent, p)).Some?
    {
      assert Earlier(s.received, y, p);
      var x :| 0 <= x < y && s.received[x].v == p;
      ArrivingVersion(l, s.sent, at[x]);
      PosAt(s.sent, at[x]);
    }
  }

  lemma {:induction false} RunJoin(l: Link, s: Net, a: seq<Event>, b: seq<Event>)
    requires Inv(l, s)
    ensures Run(l, s, a + b) == Run(l, Run(l, s, a), b)
    decreases |b|
  {
    hide Inv, Step;
    if b == [] {
      assert a + b == a;
    } else {
      var n := |b| - 1;
      RunJoin(l, s, a, b[..n]);
      assert (a + b)[..|a + b| - 1] == a + b[..n];
    }
  }

  lemma Reconnected(l: Link, s: Net)
    requires Inv(l, s)
    ensures Run(l, s, [Disconnect, Connect]) == s.(conn := Some(ResumeAt(s)))
  {
    hide Inv, Run, ResumeAt;
    RunOne(l, s, [], Disconnect);
    RunOne(l, s, [Disconnect], Connect);
    DisconnectCloses(l, s);
    SameResume(s, s.(conn := None));
    assert [] + [Disconnect] == [Disconnect] && [Disconnect] + [Connect] == [Disconnect, Connect];
  }

  lemma RunOne(l: Link, s: Net, es: seq<Event>, e: Event)
    requires Inv(l, s)
    ensures var r := Run(l, s, es);
      && (es == [] ==> r == s) && Inv(l, r) && l.Ok() && Ordered(r.sent) && Run(l, s, es + [e]) == Step(l, r, e)
  {
    hide WF, Ordered, Synced, OneRoot, Step;
    assert (es + [e])[..|es|] == es;
  }

  lemma SameResume(s: Net, t: Net)
    requires s.sent == t.sent && s.received == t.received
    ensures ResumeAt(s) == ResumeAt(t)
  {
  }

  /** Whatever the state, a new connection ends with all that is to arrive exactly when all of it is welcome. */
  lemma Reconnects(l: Link, s: Net)
    requires Inv(l, s)
    ensures Ordered(s.sent)
    ensures var r := Run(l, s, [Disconnect, Connect] + Deliveries(|s.sent|));
      && r.sent == s.sent
      && (r.conn == Some(|s.sent|) <==> forall k :: 0 <= k < |s.sent| ==> Welcome(l, s.sent, k))
      && (r.received == Stamp(Imported(l, s.sent, |s.sent|), 0) <==> forall k :: 0 <= k < |s.sent| ==> Welcome(l, s.sent, k))
  {
    hide Welcome, Imported, Stamp, WF, ResumeAt, Step;
    var es := Deliveries(|s.sent|);
    RunJoin(l, s, [Disconnect, Connect], es);
    Reconnected(l, s);
    var t := Run(l, s, [Disconnect, Connect]);
    var r := Run(l, t, es);
    DeliversAll(l, t, t.conn.value, |s.sent|);
    assert Carried(l, s.sent, t.conn.value, |s.sent|, r);
    if r.received == Stamp(Imported(l, s.sent, |s.sent|), 0) || r.conn == Some(|s.sent|) {
      assert Synced(l, r, |s.sent|);
      forall k | 0 <= k < |s.sent| ensures Welcome(l, s.sent, k) {
        SyncedIsWelcome(l, r, |s.sent|, k);
      }
    }
  }

  /**
   * However a run has gone, a new connection that stays up ends with everything that is to arrive exactly
   * when all of it is welcome; without import rules, with the whole export exactly when no id has two entry points.
   */
  lemma CatchesUp(l: Link, events: seq<Event>)
    requires l.Ok()
    ensures Inv(l, IDLE) && Ordered(Run(l, IDLE, events).sent)
    ensures var s := Run(l, IDLE, events);
      var r := Run(l, IDLE, events + ([Disconnect, Connect] + Deliveries(|s.sent|)));
      && r.sent == s.sent
      && (r.conn == Some(|s.sent|) <==> forall k :: 0 <= k < |s.sent| ==> Welcome(l, s.sent, k))
      && (r.received == Stamp(Imported(l, s.sent, |s.sent|), 0) <==> forall k :: 0 <= k < |s.sent| ==> Welcome(l, s.sent, k))
      && (Transparent(l) ==> (r.received == Received(Exported(s.sent, l.out), l.remote) <==> OneEntry(s.sent, l.out)))
  {
    hide Welcome, Imported, Stamp, Step, Transparent, OneEntry;
    IdleInv(l);
    var s := Run(l, IDLE, events);
    RunJoin(l, IDLE, events, [Disconnect, Connect] + Deliveries(|s.sent|));
    Reconnects(l, s);
    if Transparent(l) {
      AllWelcome(l, s.sent);
      ImportedIsExported(l, s.sent, |s.sent|);
    }
  }
}
