/**
 * When arrivals can be merged: queues that are in line, trees that agree on ancestry, and runs in
 * which that stays so.
 */
module LocalOrder {
  import opened Items
  import opened Dag
  import opened Keys
  import opened Log
  import opened Meet
  import opened Queue
  import opened Heads
  import opened Arrivals
  import opened Merge
  import opened Stream
  import opened LocalWrite
  import opened LocalRuns
  import opened Export

  // ---- queues in line ----

  /** The parent is stored, or waits among the first `n` entries. */
  ghost predicate There(log: seq<Item>, t: Entries, n: nat, id: Id, p: Version) {
    HasOf(log, id, p) || exists j :: 0 <= j < n && j < |t| && Of(t[j], id) && t[j].n.v == p
  }

  /** What waits of an id is new, each version once, and behind its parents. */
  ghost predicate InLine(log: seq<Item>, t: Entries, id: Id) {
    && (forall j, k :: 0 <= j < k < |t| && Of(t[j], id) && Of(t[k], id) ==> t[j].n.v != t[k].n.v)
    && (forall k :: 0 <= k < |t| && Of(t[k], id) ==> !Has(log, t[k].n.v))
    && (forall k, p :: 0 <= k < |t| && Of(t[k], id) && p in t[k].n.pa ==> There(log, t, k, id, p))
  }

  /** The positions of the entries of an id, the newest first, and their items. */
  ghost predicate Waits(t: Entries, id: Id, p: seq<Item>, ps: seq<nat>) {
    && |ps| == |p| && (forall i, j :: 0 <= i < j < |ps| ==> ps[i] > ps[j])
    && (forall i :: 0 <= i < |ps| ==> ps[i] < |t| && Of(t[ps[i]], id) && p[i] == t[ps[i]].n)
  }

  lemma {:induction false} PendingPositions(t: Entries, id: Id) returns (ps: seq<nat>)
    ensures Waits(t, id, Pending(t, id), ps)
  {
    hide Pending, Waits;
    PendingStep(t, id);
    if t == [] {
      ps := [];
      NoneWaits(id);
    } else {
      var n := |t| - 1;
      ps := PendingPositions(t[..n], id);
      OneMoreWaits(t, id, Pending(t[..n], id), ps);
      assert [] + Pending(t[..n], id) == Pending(t[..n], id);
      ps := if Of(t[n], id) then [n] + ps else ps;
    }
  }

  lemma NoneWaits(id: Id)
    ensures Waits([], id, [], [])
  {
  }

  lemma OneMoreWaits(t: Entries, id: Id, p: seq<Item>, ps: seq<nat>)
    requires t != [] && Waits(t[..|t| - 1], id, p, ps)
    ensures var n := |t| - 1;
      if Of(t[n], id) then Waits(t, id, [t[n].n] + p, [n] + ps) else Waits(t, id, p, ps)
  {
    hide Of;
    var n := |t| - 1;
    var u := t[..n];
    assert forall i :: 0 <= i < |ps| ==> ps[i] < n && u[ps[i]] == t[ps[i]];
  }

  lemma PendingStep(t: Entries, id: Id)
    ensures Pending(t, id) == if t == [] then [] else
      (if Of(t[|t| - 1], id) then [t[|t| - 1].n] else []) + Pending(t[..|t| - 1], id)
  {
  }

  /** The stored items of an id, the newest first, are all of them. */
  lemma StoredAre(c: Conf, log: seq<Item>, id: Id)
    requires WF(c, log)
    ensures var w := Wanted(log, Backward(id, None));
      && Topological(w) && Closed(w) && (forall k :: 0 <= k < |w| ==> w[k].id == id && w[k] in log)
      && (forall v :: Has(w, v) <==> HasOf(log, id, v))
  {
    hide WF, Topological, Closed, Wanted;
    SuppliesSearch(c, log, id, None);
    var w := Wanted(log, Backward(id, None));
    var ps := BackwardPositions(log, id);
    forall v ensures Has(w, v) <==> HasOf(log, id, v) {
      if k :| 0 <= k < |log| && log[k].id == id && log[k].v == v {
        var i :| 0 <= i < |ps| && ps[i] == k;
        assert w[|ps| - 1 - i] == log[k];
      }
      if i :| 0 <= i < |w| && w[i].v == v {
        assert w[i] in log;
      }
    }
  }

  /** The local side of a queue in line has children before parents, and every parent. */
  lemma InLineSide(c: Conf, log: seq<Item>, t: Entries, id: Id)
    requires WF(c, log) && InLine(log, t, id)
    ensures Topological(LocalSide(log, t, id)) && Closed(LocalSide(log, t, id))
    ensures forall v :: Has(LocalSide(log, t, id), v) <==> There(log, t, |t|, id, v)
  {
    hide WF, Wanted, Pending, HasOf;
    var ps := PendingPositions(t, id);
    var p, w := Pending(t, id), Wanted(log, Backward(id, None));
    StoredAre(c, log, id);
    SideVersions(log, t, id, ps, p, w);
    SideSorted(c, log, t, id, ps, p, w);
    SideClosed(log, t, id, ps, p, w);
  }

  /** The waiting and the stored items of an id. */
  ghost predicate Sides(log: seq<Item>, t: Entries, id: Id, ps: seq<nat>, p: seq<Item>, w: seq<Item>) {
    && p == Pending(t, id) && Waits(t, id, p, ps)
    && Topological(w) && Closed(w) && (forall k :: 0 <= k < |w| ==> w[k].id == id && w[k] in log)
    && (forall v :: Has(w, v) <==> HasOf(log, id, v))
  }

  lemma SideVersions(log: seq<Item>, t: Entries, id: Id, ps: seq<nat>, p: seq<Item>, w: seq<Item>)
    requires Sides(log, t, id, ps, p, w)
    ensures forall v :: Has(p + w, v) <==> There(log, t, |t|, id, v)
  {
    hide HasOf, Topological, Closed, Pending;
    var s := p + w;
    forall v ensures Has(s, v) <==> There(log, t, |t|, id, v) {
      if k :| 0 <= k < |s| && s[k].v == v {
        if k < |p| {
          assert s[k] == t[ps[k]].n;
        } else {
          assert w[k - |p|].v == v;
        }
      }
      if j: nat :| j < |t| && Of(t[j], id) && t[j].n.v == v {
        PendingAre(t, id, t[j].n);
        var i :| 0 <= i < |p| && p[i] == t[j].n;
        assert s[i].v == v;
      }
      if k :| 0 <= k < |w| && w[k].v == v {
        assert s[|p| + k].v == v;
      }
    }
  }

  lemma SideSorted(c: Conf, log: seq<Item>, t: Entries, id: Id, ps: seq<nat>, p: seq<Item>, w: seq<Item>)
    requires WF(c, log) && InLine(log, t, id) && Sides(log, t, id, ps, p, w)
    ensures Topological(p + w)
  {
    hide HasOf, Closed, Fitting, Numbered, Pending;
    var s := p + w;
    forall i, j | 0 <= i <= j < |s| ensures s[i].v !in s[j].pa && (i < j ==> s[i].v != s[j].v) {
      if j < |p| {
        NewerWaits(log, t, id, ps[i], ps[j]);
      } else if i < |p| {
        NewIsNoParent(c, log, w[j - |p|], p[i].v);
      } else {
        assert s[i] == w[i - |p|] && s[j] == w[j - |p|];
      }
    }
  }

  lemma NewerWaits(log: seq<Item>, t: Entries, id: Id, a: nat, b: nat)
    requires InLine(log, t, id) && b <= a < |t| && Of(t[a], id) && Of(t[b], id)
    ensures t[a].n.v !in t[b].n.pa && (b < a ==> t[a].n.v != t[b].n.v)
  {
    hide HasOf;
    OfLog(log, id, t[a].n.v);
  }

  lemma OfLog(log: seq<Item>, id: Id, v: Version)
    ensures HasOf(log, id, v) ==> Has(log, v)
  {
  }

  lemma NewIsNoParent(c: Conf, log: seq<Item>, it: Item, v: Version)
    requires WF(c, log) && it in log && !Has(log, v)
    ensures v !in it.pa && v != it.v
  {
    hide Fitting, Numbered, Distinct;
    var k :| 0 <= k < |log| && log[k] == it;
  }

  lemma SideClosed(log: seq<Item>, t: Entries, id: Id, ps: seq<nat>, p: seq<Item>, w: seq<Item>)
    requires InLine(log, t, id) && Sides(log, t, id, ps, p, w)
    requires forall v :: Has(p + w, v) <==> There(log, t, |t|, id, v)
    ensures Closed(p + w)
  {
    hide HasOf, Topological, Pending;
    var s := p + w;
    forall i, v | 0 <= i < |s| && v in s[i].pa ensures Has(s, v) {
      if i < |p| {
        assert There(log, t, ps[i], id, v);
      } else {
        assert Has(w, v);
      }
    }
  }

  // ---- trees that agree on ancestry ----

  /** An arrival at a queue in line can be merged, as long as the two trees agree on ancestry. */
  lemma InLineCanMerge(c: Conf, log: seq<Item>, t: Entries, rc: Conf, rlog: seq<Item>, it: Item)
    requires WF(c, log) && WF(rc, rlog) && rc.vSize == c.vSize && FromRemote(rc.name, rlog, it)
    requires InLine(log, t, it.id) && AncestryAgrees(RemoteSide(rlog, it), LocalSide(log, t, it.id))
    ensures Streams(RemoteSide(rlog, it), LocalSide(log, t, it.id))
  {
    hide WF, Topological, Closed, AncestryAgrees, Wanted, FromRemote, InLine;
    InLineSide(c, log, t, it.id);
    RemoteStarts(c, rc, rlog, it);
    SuppliesSearch(rc, rlog, it.id, Some(it.v));
  }

  /** They agree if the versions that both know have the same parents in both. */
  lemma SameParentsAgree(c: Conf, log: seq<Item>, t: Entries, rc: Conf, rlog: seq<Item>, it: Item)
    requires WF(c, log) && WF(rc, rlog) && rc.vSize == c.vSize && FromRemote(rc.name, rlog, it) && InLine(log, t, it.id)
    requires var sX, sY := RemoteSide(rlog, it), LocalSide(log, t, it.id);
      forall i, j :: 0 <= i < |sX| && 0 <= j < |sY| && sX[i].v == sY[j].v ==> sX[i].pa == sY[j].pa
    ensures AncestryAgrees(RemoteSide(rlog, it), LocalSide(log, t, it.id))
  {
    hide WF, Topological, Closed, AncestryAgrees, Wanted, FromRemote, InLine, LocalSide;
    InLineSide(c, log, t, it.id);
    RemoteStarts(c, rc, rlog, it);
    SuppliesSearch(rc, rlog, it.id, Some(it.v));
    SameGraphAgrees(RemoteSide(rlog, it), LocalSide(log, t, it.id));
  }

  /**
   * In a run they agree on an id when no filter has changed the parents of what the local side has of it;
   * with nothing waiting, the queue is in line by itself.
   */
  lemma KnownCanMerge(c: Conf, s: State, h: History, pe: Name, it: Item)
    requires Kept(c, s, h) && pe in s.queues && FromRemote(pe, s.remotes[pe], it)
    requires Pending(s.queues[pe], it.id) == [] || InLine(s.log, s.queues[pe], it.id)
    requires forall v :: There(s.log, s.queues[pe], |s.queues[pe]|, it.id, v) ==> h.parents(v).Some?
    ensures AncestryAgrees(RemoteSide(s.remotes[pe], it), LocalSide(s.log, s.queues[pe], it.id))
    ensures Streams(RemoteSide(s.remotes[pe], it), LocalSide(s.log, s.queues[pe], it.id))
  {
    hide WF, QueueOk, Topological, Closed, AncestryAgrees, FromRemote, InLine, Wanted, There;
    var t, rlog, rc := s.queues[pe], s.remotes[pe], c.(name := pe);
    var sX, sY := RemoteSide(rlog, it), LocalSide(s.log, t, it.id);
    NothingWaits(s.log, t, it.id);
    InLineSide(c, s.log, t, it.id);
    LocalItems(c, s.log, t, it.id);
    RemoteStarts(c, rc, rlog, it);
    SuppliesSearch(rc, rlog, it.id, Some(it.v));
    forall i, j | 0 <= i < |sX| && 0 <= j < |sY| && sX[i].v == sY[j].v ensures sX[i].pa == sY[j].pa {
      assert Has(sY, sY[j].v) && sX[i] in rlog;
      LocalMade(s, h, pe, t, it.id, sY[j]);
    }
    SameParentsAgree(c, s.log, t, rc, rlog, it);
    InLineCanMerge(c, s.log, t, rc, rlog, it);
  }

  lemma NothingWaits(log: seq<Item>, t: Entries, id: Id)
    ensures Pending(t, id) == [] ==> InLine(log, t, id)
  {
    hide Pending, There, Has;
    forall k | 0 <= k < |t| && Of(t[k], id) ensures t[k].n in Pending(t, id) {
      PendingAre(t, id, t[k].n);
    }
  }

  lemma LocalMade(s: State, h: History, pe: Name, t: Entries, id: Id, it: Item)
    requires pe in s.queues && pe in s.remotes && t == s.queues[pe] && AllMade(s.log, h) && QueueKept(s, h, pe)
    requires it !in s.log ==> exists j :: 0 <= j < |t| && t[j].n == it && Of(t[j], id)
    ensures Made(it, h)
  {
    hide Made, Based;
  }

  /**
   * They also agree when the remote exports through a filter: the local side tells the ancestry of the
   * full graph, and the export preserves it.
   */
  lemma FilteredAgrees(rc: Conf, G: seq<Item>, f: Transform, rlog: seq<Item>, it: Item, sY: seq<Item>)
    requires WF(rc, G) && Ordered(G) && Keeps(f) && WF(rc, rlog) && rlog == Received(Exported(G, f), rc.name)
    requires FromRemote(rc.name, rlog, it) && Closed(sY)
    requires forall i, j :: 0 <= i < |G| && 0 <= j < |sY| && G[i].v == sY[j].v ==> G[i].pa == sY[j].pa
    ensures AncestryAgrees(RemoteSide(rlog, it), sY)
  {
    hide WF, Wanted, FromRemote, Topological, Closed, Ordered, Exported, Received, Passing;
    var sX, E := RemoteSide(rlog, it), Exported(G, f);
    RemoteStarts(rc, rc, rlog, it);
    SuppliesSearch(rc, rlog, it.id, Some(it.v));
    LogClosed(rc, rlog);
    LogClosed(rc, G);
    PartAgrees(rc, sX, rlog);
    SameGraphAgrees(G, sY);
    WFOrdered(rc, G);
    hide Anc, Has;
    forall u, w | Has(sX, u) && Has(sX, w) && Has(sY, u) && Has(sY, w) ensures Anc(sX, u, w) <==> Anc(sY, u, w) {
      InWhole(sX, rlog, u);
      InWhole(sX, rlog, w);
      Agreed(sX, rlog, u, w);
      ReceivedPaths(E, rc.name, u, w);
      ReceivedPassing(G, f, rc.name, u);
      ReceivedPassing(G, f, rc.name, w);
      ExportKeepsAncestry(G, f, u, w);
      Agreed(G, sY, u, w);
    }
  }

  lemma Agreed(s: seq<Item>, t: seq<Item>, u: Version, w: Version)
    requires AncestryAgrees(s, t) && Has(s, u) && Has(s, w) && Has(t, u) && Has(t, w)
    ensures Anc(s, u, w) <==> Anc(t, u, w)
  {
  }

  lemma InWhole(s: seq<Item>, log: seq<Item>, v: Version)
    requires Has(s, v) && forall k :: 0 <= k < |s| ==> s[k] in log
    ensures Has(log, v)
  {
    var k :| 0 <= k < |s| && s[k].v == v;
    assert s[k] in log;
  }

  lemma LogClosed(c: Conf, log: seq<Item>)
    requires WF(c, log)
    ensures Closed(log)
  {
    forall k, p | 0 <= k < |log| && p in log[k].pa ensures Has(log, p) {
      assert Earlier(log, k, p);
    }
  }

  /** A stream of a log with all parents tells the ancestry of the log. */
  lemma PartAgrees(c: Conf, s: seq<Item>, log: seq<Item>)
    requires WF(c, log) && Closed(s) && Closed(log) && forall k :: 0 <= k < |s| ==> s[k] in log
    ensures AncestryAgrees(s, log)
  {
    hide Fitting, Numbered, Linked, Closed, AncestryAgrees;
    forall i, j | 0 <= i < |s| && 0 <= j < |log| && s[i].v == log[j].v ensures s[i].pa == log[j].pa {
      assert s[i] in log;
    }
    SameGraphAgrees(s, log);
  }

  lemma ReceivedPaths(es: seq<Item>, remote: Name, u: Version, w: Version)
    ensures Anc(Received(es, remote), u, w) <==> Anc(es, u, w)
  {
    var rs := Received(es, remote);
    assert |rs| == |es| && forall k :: 0 <= k < |es| ==> rs[k].v == es[k].v && rs[k].pa == es[k].pa;
    hide Received;
    SameSteps(es, rs, u, w);
    SameSteps(rs, es, u, w);
  }

  lemma SameSteps(a: seq<Item>, b: seq<Item>, u: Version, w: Version)
    requires |a| == |b| && forall k :: 0 <= k < |a| ==> a[k].v == b[k].v && a[k].pa == b[k].pa
    ensures Anc(a, u, w) ==> Anc(b, u, w)
  {
    if ps :| PathFrom(a, ps, u, w) {
      forall k | 0 < k < |ps| ensures Parent(b, ps[k - 1], ps[k]) {
        assert Parent(a, ps[k - 1], ps[k]);
      }
      assert PathFrom(b, ps, u, w);
    }
  }

  lemma ReceivedPassing(G: seq<Item>, f: Transform, remote: Name, v: Version)
    requires Distinct(G) && Ordered(G) && Keeps(f) && Has(Received(Exported(G, f), remote), v)
    ensures Passing(G, f, v) && Has(G, v)
  {
    hide Ordered, Keeps, Exported, Distinct;
    var at := ExportOrder(G, f, |G|);
    var E := Exported(G, f);
    ExportAll(G, f);
    var rs := Received(E, remote);
    var k :| 0 <= k < |rs| && rs[k].v == v;
    ExportedVersion(G, f, at[k]);
  }

  lemma ExportAll(G: seq<Item>, f: Transform)
    requires Ordered(G) && Keeps(f)
    ensures Exported(G, f) == ExportUpTo(G, f, |G|)
  {
  }

  lemma ExportedVersion(G: seq<Item>, f: Transform, k: nat)
    requires Ordered(G) && Keeps(f) && k < |G| && f(G[k]).Some?
    ensures ExportAt(G, f, k).v == G[k].v
  {
  }

  // ---- runs in which queues stay in line ----

  /** No other waiting entry is for the version. */
  ghost predicate NowhereElse(s: State, v: Version, pe: Name, k: nat) {
    forall p, j :: p in s.queues && 0 <= j < |s.queues[p]| && (p != pe || j != k) ==> s.queues[p][j].n.v != v
  }

  /** The item is stored and nothing of its id waits, or it is new and its parents are there. */
  ghost predicate Expected(log: seq<Item>, t: Entries, sX: seq<Item>, sY: seq<Item>, it: Item, hash: Version) {
    if Has(log, it.v) then
      HasOf(log, it.id, it.v) && Pending(t, it.id) == [] && SameBodies(sX, sY)
    else
      && it.v !in Versions(t) && (forall p :: p in it.pa ==> There(log, t, |t|, it.id, p))
      && hash !in Versions(t) && !Has(log, hash)
  }

  /**
   * Remotes send parents first, trees agree on ancestry, a version waits in one place only, and a
   * confirmation echoes the first waiting entry of its id, one without conflict.
   */
  ghost predicate Orderly(s: State, e: Event) {
    match e
    case Write(d) => forall pe :: pe in s.queues ==> d.v !in Versions(s.queues[pe])
    case Receive(_, _) => true
    case Come(pe, it, hash) =>
      pe in s.queues && pe in s.remotes ==>
        var sX, sY := RemoteSide(s.remotes[pe], it), LocalSide(s.log, s.queues[pe], it.id);
        AncestryAgrees(sX, sY) && Expected(s.log, s.queues[pe], sX, sY, it, hash)
    case Confirm(obj) =>
      obj.pe in s.queues ==> forall k: nat :: LastFoundAt(s.queues[obj.pe], obj.n, k) ==>
        EchoesFirst(s.queues[obj.pe], obj, k) && NowhereElse(s, obj.n.v, obj.pe, k)
  }

  ghost predicate Lined(s: State) {
    s.loose == {} && forall pe, id :: pe in s.queues ==> InLine(s.log, s.queues[pe], id)
  }

  /** A queue stays in line while the log grows by other versions. */
  lemma LogGrows(log: seq<Item>, log': seq<Item>, t: Entries, id: Id)
    requires InLine(log, t, id) && log <= log'
    requires forall k, j :: 0 <= k < |t| && |log| <= j < |log'| ==> log'[j].v != t[k].n.v
    ensures InLine(log', t, id)
  {
    forall k | 0 <= k < |t| && Of(t[k], id) ensures !Has(log', t[k].n.v) {
      assert !Has(log, t[k].n.v);
      assert forall j :: 0 <= j < |log| ==> log'[j] == log[j];
    }
    forall k, p | 0 <= k < |t| && Of(t[k], id) && p in t[k].n.pa ensures There(log', t, k, id, p) {
      assert There(log, t, k, id, p);
      MoreStored(log, log', id, p);
    }
  }

  lemma MoreStored(log: seq<Item>, log': seq<Item>, id: Id, p: Version)
    requires log <= log'
    ensures HasOf(log, id, p) ==> HasOf(log', id, p)
  {
    if j :| 0 <= j < |log| && log[j].id == id && log[j].v == p {
      assert log'[j] == log[j];
    }
  }

  /** One more entry, new and behind its parents. */
  lemma OneMoreInLine(log: seq<Item>, t: Entries, e: Entry, id: Id)
    requires InLine(log, t, id) && e.n.v !in Versions(t) && !Has(log, e.n.v)
    requires Of(e, id) ==> forall p :: p in e.n.pa ==> There(log, t, |t|, id, p)
    ensures InLine(log, t + [e], id)
  {
    hide Has, HasOf;
    var u := t + [e];
    forall j, k | 0 <= j < k < |u| && Of(u[j], id) && Of(u[k], id) ensures u[j].n.v != u[k].n.v {
      if k == |t| {
        assert t[j].n.v in Versions(t);
      }
    }
    forall k, p | 0 <= k < |u| && Of(u[k], id) && p in u[k].n.pa ensures There(log, u, k, id, p) {
      assert There(log, t, k, id, p);
      if j :| 0 <= j < k && j < |t| && Of(t[j], id) && t[j].n.v == p {
        assert u[j] == t[j];
      }
    }
  }

  /** The first waiting entry of its id is stored and leaves the queue. */
  lemma FirstLeaves(log: seq<Item>, log': seq<Item>, t: Entries, k: nat, id: Id)
    requires InLine(log, t, id) && k < |t| && forall j :: 0 <= j < |t| && j != k ==> t[j].n.v != t[k].n.v
    requires |log'| == |log| + 1 && log <= log' && log'[|log|].v == t[k].n.v && log'[|log|].id == t[k].n.id
    ensures InLine(log', t[..k] + t[k + 1..], id)
  {
    var u := t[..k] + t[k + 1..];
    assert forall j :: 0 <= j < |u| ==> u[j] == t[if j < k then j else j + 1];
    forall j | 0 <= j < |u| && Of(u[j], id) ensures !Has(log', u[j].n.v) {
      var m := if j < k then j else j + 1;
      assert !Has(log, t[m].n.v) && forall i :: 0 <= i < |log| ==> log'[i] == log[i];
    }
    forall j, p | 0 <= j < |u| && Of(u[j], id) && p in u[j].n.pa ensures There(log', u, j, id, p) {
      StillThere(log, log', t, k, u, j, id, p);
    }
  }

  lemma StillThere(log: seq<Item>, log': seq<Item>, t: Entries, k: nat, u: Entries, j: nat, id: Id, p: Version)
    requires InLine(log, t, id) && k < |t| && u == t[..k] + t[k + 1..]
    requires |log'| == |log| + 1 && log <= log' && log'[|log|].v == t[k].n.v && log'[|log|].id == t[k].n.id
    requires j < |u| && Of(u[j], id) && p in u[j].n.pa
    ensures There(log', u, j, id, p)
  {
    var m := if j < k then j else j + 1;
    assert u[j] == t[m];
    assert There(log, t, m, id, p);
    if HasOf(log, id, p) {
      MoreStored(log, log', id, p);
    } else {
      var i :| 0 <= i < m && i < |t| && Of(t[i], id) && t[i].n.v == p;
      if i == k {
        assert log'[|log|].v == p;
      } else {
        assert u[if i < k then i else i - 1] == t[i];
      }
    }
  }

  // ---- arrivals ----

  /** An item that is stored while nothing of its id waits is found to be stored. */
  lemma StoredIsRepeat(c: Conf, log: seq<Item>, t: Entries, rc: Conf, rlog: seq<Item>, it: Item, hash: Version,
                       r: Arrival, queued: Entries)
    requires WF(c, log) && OneHead(log) && WF(rc, rlog) && rc.vSize == c.vSize && FromRemote(rc.name, rlog, it)
    requires HasOf(log, it.id, it.v) && Pending(t, it.id) == []
    requires var sX, sY := RemoteSide(rlog, it), LocalSide(log, t, it.id);
      sX != [] && Streams(sX, sY) && SameBodies(sX, sY) && Classified(sX, sY, it, hash, r, queued)
    ensures queued == []
  {
    hide WF, OneHead, Streams, Wanted, SameBodies, FromRemote, RootIsAncestor, Against, Decided, Told;
    var sX, sY := RemoteSide(rlog, it), LocalSide(log, t, it.id);
    RemoteStarts(c, rc, rlog, it);
    StoredRoot(c, log, t, it, sX);
    if r == Conflicting {
      ConflictsHaveParted(sX, sY, it, hash, queued);
    }
  }

  lemma StoredRoot(c: Conf, log: seq<Item>, t: Entries, it: Item, sX: seq<Item>)
    requires WF(c, log) && OneHead(log) && HasOf(log, it.id, it.v) && Pending(t, it.id) == []
    requires sX != [] && sX[0].v == it.v
    ensures var sY := LocalSide(log, t, it.id); sY != [] && sY[0].i.Some? && RootIsAncestor(sX, sY)
  {
    hide WF, OneHead, Wanted, Closed, Topological;
    var sY := LocalSide(log, t, it.id);
    assert sY == Wanted(log, Backward(it.id, None));
    StoredAre(c, log, it.id);
    var k :| 0 <= k < |log| && log[k].id == it.id && log[k].v == it.v;
    assert Has(sY, it.v);
    var head := HeadOf(c, log, it.id);
    NewestFirst(c, log, it.id, Some(head));
    StoredItem(c, log, sY[0]);
    BelowHead(c, log, head, k);
    LogClosed(c, log);
    PartAgrees(c, sY, log);
    InWhole(sY, log, it.v);
    assert Has(sY, head) && Has(log, head) by { InWhole(sY, log, sY[0].v); }
    Agreed(sY, log, head, it.v);
  }

  lemma HeadOf(c: Conf, log: seq<Item>, id: Id) returns (head: Version)
    requires WF(c, log) && HasId(log, id)
    ensures IsHeadOf(log, id, Some(head))
  {
    assert log[..|log|] == log;
    var k := IdHasHead(c, log, |log|, id);
    head := log[k].v;
  }

  /** What an expected arrival queues stays in line. */
  lemma QueuedInLine(log: seq<Item>, t: Entries, sX: seq<Item>, sY: seq<Item>, it: Item, hash: Version,
                     r: Arrival, queued: Entries, id: Id)
    requires InLine(log, t, id) && sX != [] && sX[0].v == it.v && Classified(sX, sY, it, hash, r, queued) && !Has(sX, hash)
    requires !Has(log, it.v) && Expected(log, t, sX, sY, it, hash)
    requires forall v :: Has(sY, v) ==> There(log, t, |t|, it.id, v)
    ensures InLine(log, t + queued, id)
  {
    hide InLine, There, RootIsAncestor, Against, Decided, Told, Has, HasOf, SameBodies, Pending;
    if |queued| > 0 {
      assert queued[0].n == it;
      OneMoreInLine(log, t, queued[0], id);
      var u := t + [queued[0]];
      if |queued| > 1 {
        MergeParents(log, t, queued[0], sX, sY, hash, queued[1]);
        OneMoreInLine(log, u, queued[1], id);
        assert t + queued == u + [queued[1]];
      } else {
        assert t + queued == u;
      }
    } else {
      assert t + queued == t;
    }
  }

  lemma MergeParents(log: seq<Item>, t: Entries, a: Entry, sX: seq<Item>, sY: seq<Item>, hash: Version, m: Entry)
    requires sX != [] && sY != [] && sX[0].v == a.n.v && !Has(sX, hash) && hash !in Versions(t)
    requires m.n.v == hash && m.n.id == a.n.id && m.n.pa == [sX[0].v, sY[0].v]
    requires forall v :: Has(sY, v) ==> There(log, t, |t|, a.n.id, v)
    ensures m.n.v !in Versions(t + [a])
    ensures forall p :: p in m.n.pa ==> There(log, t + [a], |t + [a]|, a.n.id, p)
  {
    hide HasOf;
    var u := t + [a];
    assert u[|t|] == a && Has(sY, sY[0].v) && There(log, t, |t|, a.n.id, sY[0].v);
    forall k | 0 <= k < |u| ensures u[k].n.v != hash {
      if k < |t| {
        assert t[k].n.v in Versions(t);
      }
    }
    if j :| 0 <= j < |t| && Of(t[j], a.n.id) && t[j].n.v == sY[0].v {
      assert u[j] == t[j];
    }
  }

  lemma ArrivalInLine(c: Conf, s: State, pe: Name, it: Item, hash: Version, r: Arrival, queued: Entries, s': State)
    requires Base(c, s) && OneHead(s.log) && Lined(s) && pe in s.queues && pe in s.remotes
    requires FromRemote(pe, s.remotes[pe], it) && Comes(c, s, pe, it, hash, r, queued, s')
    requires Orderly(s, Come(pe, it, hash))
    ensures Lined(s')
  {
    hide WF, OneHead, QueueOk, FromRemote, Streams, Classified, AnySort, RemoteSide, LocalSide, InLine;
    hide AncestryAgrees, Expected, Waiting, NotedLog;
    var t, rlog, rc := s.queues[pe], s.remotes[pe], c.(name := pe);
    var sX, sY := RemoteSide(rlog, it), LocalSide(s.log, t, it.id);
    ArrivalKeeps(c, s, pe, it, hash, r, queued, s');
    InLineCanMerge(c, s.log, t, rc, rlog, it);
    RemoteStarts(c, rc, rlog, it);
    InLineSide(c, s.log, t, it.id);
    NotWaiting(s.log, t, sX, sY, it, hash);
    forall p, id | p in s'.queues ensures InLine(s'.log, s'.queues[p], id) {
      if p == pe {
        if Has(s.log, it.v) {
          ExpectedStored(s.log, t, sX, sY, it, hash);
          StoredIsRepeat(c, s.log, t, rc, rlog, it, hash, r, queued);
          assert t + queued == t;
        } else {
          QueuedInLine(s.log, t, sX, sY, it, hash, r, queued, id);
        }
      }
    }
  }

  lemma ExpectedStored(log: seq<Item>, t: Entries, sX: seq<Item>, sY: seq<Item>, it: Item, hash: Version)
    requires Expected(log, t, sX, sY, it, hash) && Has(log, it.v)
    ensures HasOf(log, it.id, it.v) && Pending(t, it.id) == [] && SameBodies(sX, sY)
  {
  }

  lemma NotWaiting(log: seq<Item>, t: Entries, sX: seq<Item>, sY: seq<Item>, it: Item, hash: Version)
    requires InLine(log, t, it.id) && Expected(log, t, sX, sY, it, hash)
    ensures !Waiting(t, it)
  {
    hide Has, HasOf, There, SameBodies, Pending;
    assert forall k :: 0 <= k < |t| ==> t[k].n.v in Versions(t);
  }

  // ---- drafts and confirmations ----

  lemma DraftInLine(s: State, d: Draft, head: Option<Version>, r: Answer, log': seq<Item>, pe: Name, id: Id)
    requires pe in s.queues && InLine(s.log, s.queues[pe], id) && d.v !in Versions(s.queues[pe])
    requires DraftStep(head, d, s.log, r, log')
    ensures InLine(log', s.queues[pe], id)
  {
    hide InLine, Has;
    var t := s.queues[pe];
    forall k, j | 0 <= k < |t| && |s.log| <= j < |log'| ensures log'[j].v != t[k].n.v {
      assert t[k].n.v in Versions(t);
    }
    LogGrows(s.log, log', t, id);
  }

  /** In a queue in line, a confirmation of the first waiting entry of its id that fits the head is written. */
  lemma FirstIsWritten(c: Conf, s: State, obj: Ack, head: Option<Version>, k: nat, h: History)
    requires Kept(c, s, h) && Lined(s) && obj.pe in s.queues && IsHeadOf(s.log, obj.n.id, head) && FitsHead(head, obj)
    requires LastFoundAt(s.queues[obj.pe], obj.n, k) && EchoesFirst(s.queues[obj.pe], obj, k)
    ensures var n := s.queues[obj.pe][k].n; !Has(s.log, n.v) && Connects(s.log, [n], n)
  {
    hide WF, Forwards, AllMade, Made, HasId, OneHead;
    var t := s.queues[obj.pe];
    var n := t[k].n;
    assert InLine(s.log, t, n.id) && QueueKept(s, h, obj.pe);
    forall p | p in n.pa ensures HasOf(s.log, n.id, p) {
      assert There(s.log, t, k, n.id, p);
    }
    if n.pa == [] && head.Some? {
      RootForwardsNothing(c, s, obj.pe, n, head);
    }
  }

  lemma RootForwardsNothing(c: Conf, s: State, pe: Name, n: Item, head: Option<Version>)
    requires Base(c, s) && pe in s.remotes && n.pa == [] && head.Some?
    ensures !Forwards(s.remotes[pe], n, head.value)
  {
    hide QueueOk, Fitting, Numbered, Linked;
    var rlog := s.remotes[pe];
    if Forwards(rlog, n, head.value) {
      AncIsReach(rlog, n.v, head.value);
      var p := ReachFirst(rlog, n.v, {}, head.value);
    }
  }

  lemma ConfirmInLine(c: Conf, s: State, obj: Ack, head: Option<Version>, r: Answer, s': State, h: History)
    requires Kept(c, s, h) && OneHead(s.log) && Lined(s) && obj.pe in s.queues && Confirms(c, s, obj, head, r, s')
    requires Orderly(s, Confirm(obj))
    ensures Lined(s')
  {
    hide Kept, OneHead, IsHeadOf, FitsHead, Handled, FoundAt, EchoesFirst, NowhereElse, InLine;
    var t := s.queues[obj.pe];
    if FitsHead(head, obj) && |obj.lcas| <= 1 && exists k: nat :: FoundAt(t, obj.n, k) {
      var k := LastFound(t, obj.n);
      FirstIsWritten(c, s, obj, head, k, h);
      WrittenInLine(c, s, obj, k, r, s', h);
    }
  }

  lemma WrittenInLine(c: Conf, s: State, obj: Ack, k: nat, r: Answer, s': State, h: History)
    requires Kept(c, s, h) && Lined(s) && obj.pe in s.queues && obj.pe in s'.queues
    requires LastFoundAt(s.queues[obj.pe], obj.n, k)
    requires Handled(c.name, s.queues[obj.pe], obj.n.id, k + 1, s.log, r, s'.log, s'.queues[obj.pe])
    requires s' == State(s'.log, s.queues[obj.pe := s'.queues[obj.pe]], s.remotes, s.loose)
    requires EchoesFirst(s.queues[obj.pe], obj, k) && NowhereElse(s, obj.n.v, obj.pe, k)
    requires var n := s.queues[obj.pe][k].n; !Has(s.log, n.v) && Connects(s.log, [n], n)
    ensures r == Written && Lined(s')
  {
    hide WF, OneHead, QueueKept, InLine, Connects, Has, Loop, Appended, AllMade;
    var t := s.queues[obj.pe];
    var n := t[k].n;
    FirstOfId(t, obj.n.id, k + 1);
    OnlyItem(s.log, c.name, n);
    assert EntryOk(c, t[k]);
    OneAppended(c, s.log, n);
    forall pe, id | pe in s'.queues ensures InLine(s'.log, s'.queues[pe], id) {
      if pe == obj.pe {
        FirstLeaves(s.log, s'.log, t, k, id);
      } else {
        LogGrows(s.log, s'.log, s.queues[pe], id);
      }
    }
  }

  lemma StepStaysInLine(c: Conf, s: State, e: Event, s': State, h: History)
    requires Kept(c, s, h) && OneHead(s.log) && Lined(s) && Next(c, s, e, s') && Orderly(s, e)
    ensures Lined(s')
  {
    hide Base, OneHead, MoreHeads, DraftStep, Comes, Confirms, FromRemote, Pending, IsHeadOf, Batched, QueueKept, AllMade;
    hide InLine, Expected, AncestryAgrees, EchoesFirst, NowhereElse;
    match e
    case Write(d) =>
      OneOnly(s.log, d.id);
      var head, r :| IsHeadOf(s.log, d.id, head) && DraftStep(head, d, s.log, r, s'.log);
      forall pe, id | pe in s'.queues ensures InLine(s'.log, s'.queues[pe], id) {
        DraftInLine(s, d, head, r, s'.log, pe, id);
      }
    case Receive(pe, items) =>
    case Come(pe, it, hash) =>
      OneOnly(s.log, it.id);
      var r, queued :| Comes(c, s, pe, it, hash, r, queued, s');
      ArrivalInLine(c, s, pe, it, hash, r, queued, s');
    case Confirm(obj) =>
      OneOnly(s.log, obj.n.id);
      var head, r :| Confirms(c, s, obj, head, r, s');
      ConfirmInLine(c, s, obj, head, r, s', h);
  }

  lemma OrderlyIsInOrder(s: State, e: Event)
    requires Lined(s) && Orderly(s, e)
    ensures InOrder(s, e)
  {
    hide InLine, EchoesFirst, NowhereElse, LastFoundAt, Expected, AncestryAgrees;
  }

  ghost predicate AllOrderly(ss: seq<State>, es: seq<Event>, h: History, n: nat) {
    forall k :: 0 <= k < n && k < |es| && k < |ss| ==> Timely(ss[k], es[k], h) && Orderly(ss[k], es[k])
  }

  /**
   * In orderly runs every arrival can be merged, all queues stay in line, and there is one head per id
   * all along.
   */
  lemma OrderlyKeepsOneHead(c: Conf, ss: seq<State>, es: seq<Event>, h: History)
    requires IsRun(c, ss, es) && AllOrderly(ss, es, h, |es|)
    ensures AllOneHead(ss, |ss|) && forall k :: 0 <= k < |ss| ==> Lined(ss[k])
  {
    hide Initial, Next, OneHead, Timely, Orderly, Kept, Lined;
    forall k | 0 <= k < |ss| ensures OneHead(ss[k].log) && Lined(ss[k]) {
      LinedUpTo(c, ss, es, h, k);
    }
  }

  lemma {:induction false} LinedUpTo(c: Conf, ss: seq<State>, es: seq<Event>, h: History, n: nat)
    requires IsRun(c, ss, es) && n <= |es| && AllOrderly(ss, es, h, n)
    ensures Kept(c, ss[n], h) && OneHead(ss[n].log) && Lined(ss[n])
  {
    hide Next, OneHead, Kept, Timely, Orderly, InOrder, Base, Fine, Lined;
    if n == 0 {
      StartIsKept(c, ss[0], h);
      StartIsLined(c, ss[0]);
    } else {
      LinedUpTo(c, ss, es, h, n - 1);
      OrderlyIsInOrder(ss[n - 1], es[n - 1]);
      InOrderIsFine(c, ss[n - 1], es[n - 1], h);
      KeptBase(c, ss[n - 1], h);
      StepKeepsHead(c, ss[n - 1], es[n - 1], ss[n]);
      StepKeeps(c, ss[n - 1], es[n - 1], ss[n], h);
      StepStaysInLine(c, ss[n - 1], es[n - 1], ss[n], h);
    }
  }

  lemma StartIsLined(c: Conf, s: State)
    requires Initial(c, s)
    ensures Lined(s)
  {
  }
}
