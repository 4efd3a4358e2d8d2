/**
 * Filtered export: only items that pass are sent, each with the nearest passing ancestors as
 * its parents.
 */
module Export {
  import opened Items
  import opened Dag
  import opened Keys
  import opened Log
  import opened Stream
  import opened Tail

  /** Filter and hooks together: no item, or the item with a possibly different document. */
  type Transform = Item -> Option<Item>

  ghost predicate Keeps(f: Transform) {
    forall it :: f(it).Some? ==>
      f(it).value.id == it.id && f(it).value.v == it.v && f(it).value.pa == it.pa && f(it).value.pe == it.pe
  }

  /** Every parent is stored before its child. */
  ghost predicate Ordered(log: seq<Item>) {
    forall k :: 0 <= k < |log| ==> Below(log, log[k].pa, k)
  }

  ghost predicate Below(log: seq<Item>, pas: seq<Version>, k: nat) {
    forall p :: p in pas ==> Pos(log, p) < k
  }

  /** No version is listed twice. */
  ghost predicate EachOnce(ps: seq<Version>) {
    forall i, j :: 0 <= i < j < |ps| ==> ps[i] != ps[j]
  }

  function AddKey(ps: seq<Version>, p: Version): (r: seq<Version>)
    ensures (forall v :: v in r <==> v in ps || v == p) && (EachOnce(ps) ==> EachOnce(r))
  {
    if p in ps then ps else ps + [p]
  }

  function AddKeys(ps: seq<Version>, qs: seq<Version>): (r: seq<Version>)
    ensures (forall v :: v in r <==> v in ps || v in qs) && (EachOnce(ps) ==> EachOnce(r))
  {
    if qs == [] then ps else
      assert qs == qs[..|qs| - 1] + [qs[|qs| - 1]];
      AddKey(AddKeys(ps, qs[..|qs| - 1]), qs[|qs| - 1])
  }

  /** The passing parents among `pas`, descending through parents that do not pass. */
  ghost function ConnectedParents(log: seq<Item>, f: Transform, pas: seq<Version>, bound: nat): (r: seq<Version>)
    requires Ordered(log) && bound <= |log| && Below(log, pas, bound)
    ensures EachOnce(r)
    decreases bound, |pas|
  {
    if pas == [] then [] else
      var p := pas[|pas| - 1];
      var found := ConnectedParents(log, f, pas[..|pas| - 1], bound);
      var k := Pos(log, p);
      assert p in pas;
      if f(log[k]).Some? then AddKey(found, p)
      else AddKeys(found, ConnectedParents(log, f, log[k].pa, k))
  }

  /** All but the parents is what filter and hooks made of the item; perspective and number are local and dropped. */
  ghost predicate Conveys(e: Item, x: Item) {
    e.id == x.id && e.v == x.v && e.d == x.d && e.c == x.c && e.b == x.b && e.pe.None? && e.i.None?
  }

  /** What is sent for the item at position `k`. */
  ghost function ExportAt(log: seq<Item>, f: Transform, k: nat): (e: Item)
    requires Ordered(log) && Keeps(f) && k < |log| && f(log[k]).Some?
    ensures Conveys(e, f(log[k]).value) && EachOnce(e.pa)
  {
    var it := f(log[k]).value;
    it.(pa := ConnectedParents(log, f, it.pa, k), pe := None, i := None)
  }

  /** What is sent for the first `n` items. */
  ghost function ExportUpTo(log: seq<Item>, f: Transform, n: nat): seq<Item>
    requires Ordered(log) && Keeps(f) && n <= |log|
  {
    if n == 0 then [] else
      ExportUpTo(log, f, n - 1) + if f(log[n - 1]).Some? then [ExportAt(log, f, n - 1)] else []
  }

  ghost function Exported(log: seq<Item>, f: Transform): seq<Item>
    requires Ordered(log) && Keeps(f)
  {
    ExportUpTo(log, f, |log|)
  }

  lemma WFOrdered(c: Conf, log: seq<Item>)
    requires WF(c, log)
    ensures Ordered(log) && Distinct(log)
  {
    hide Fitting, Numbered, Pos;
    forall k, p | 0 <= k < |log| && p in log[k].pa ensures Pos(log, p) < k {
      assert Earlier(log, k, p);
      var j :| 0 <= j < k && log[j].v == p;
      PosIs(log, p);
    }
  }

  // ---- which parents ----

  ghost predicate Passing(log: seq<Item>, f: Transform, v: Version) {
    exists k :: 0 <= k < |log| && log[k].v == v && f(log[k]).Some?
  }

  /** A way from `p` to the passing `v` through vertices that do not pass. */
  ghost predicate HopPath(log: seq<Item>, f: Transform, ps: seq<Version>, p: Version, v: Version) {
    PathFrom(log, ps, p, v) && Passing(log, f, v) && forall k :: 0 <= k < |ps| - 1 ==> !Passing(log, f, ps[k])
  }

  ghost predicate Hop(log: seq<Item>, f: Transform, p: Version, v: Version) {
    exists ps :: HopPath(log, f, ps, p, v)
  }

  /** `v` is a nearest passing ancestor of `a`. */
  ghost predicate Nearest(log: seq<Item>, f: Transform, a: Version, v: Version) {
    exists p :: Parent(log, a, p) && Hop(log, f, p, v)
  }

  lemma HopPassing(log: seq<Item>, f: Transform, p: Version, v: Version)
    requires Passing(log, f, p)
    ensures Hop(log, f, p, v) <==> v == p
  {
    if ps :| HopPath(log, f, ps, p, v) {
      assert |ps| == 1;
    }
    assert HopPath(log, f, [p], p, p);
  }

  lemma HopThrough(log: seq<Item>, f: Transform, p: Version, v: Version)
    requires !Passing(log, f, p)
    ensures Hop(log, f, p, v) <==> Nearest(log, f, p, v)
  {
    if ps :| HopPath(log, f, ps, p, v) {
      assert |ps| > 1;
      assert HopPath(log, f, ps[1..], ps[1], v);
      assert Parent(log, p, ps[1]);
    }
    if q, ps :| Parent(log, p, q) && HopPath(log, f, ps, q, v) {
      assert HopPath(log, f, [p] + ps, p, v);
    }
  }

  lemma NearestFromItem(log: seq<Item>, f: Transform, k: nat, v: Version)
    requires Distinct(log) && k < |log|
    ensures Nearest(log, f, log[k].v, v) <==> exists p :: p in log[k].pa && Hop(log, f, p, v)
  {
    forall p ensures Parent(log, log[k].v, p) <==> p in log[k].pa {
    }
  }

  lemma {:induction false} ConnectedAre(log: seq<Item>, f: Transform, pas: seq<Version>, bound: nat, v: Version)
    requires Distinct(log) && Ordered(log) && bound <= |log| && Below(log, pas, bound)
    ensures v in ConnectedParents(log, f, pas, bound) <==> exists p :: p in pas && Hop(log, f, p, v)
    decreases bound, |pas|
  {
    if pas != [] {
      var n := |pas| - 1;
      var p := pas[n];
      assert pas == pas[..n] + [p];
      ConnectedAre(log, f, pas[..n], bound, v);
      var k := Pos(log, p);
      PosIs(log, p);
      assert Passing(log, f, p) <==> f(log[k]).Some?;
      if f(log[k]).Some? {
        HopPassing(log, f, p, v);
      } else {
        ConnectedAre(log, f, log[k].pa, k, v);
        HopThrough(log, f, p, v);
        NearestFromItem(log, f, k, v);
      }
    }
  }

  /** The exported parents of an item are exactly its nearest passing ancestors. */
  lemma ParentsAreNearest(log: seq<Item>, f: Transform, k: nat, v: Version)
    requires Distinct(log) && Ordered(log) && Keeps(f) && k < |log| && f(log[k]).Some?
    ensures v in ExportAt(log, f, k).pa <==> Nearest(log, f, log[k].v, v)
  {
    ConnectedAre(log, f, log[k].pa, k, v);
    NearestFromItem(log, f, k, v);
  }

  /** What the export consists of: one item for every passing position, in order. */
  lemma {:induction false} ExportHas(log: seq<Item>, f: Transform, n: nat)
    requires Ordered(log) && Keeps(f) && n <= |log|
    ensures forall e :: e in ExportUpTo(log, f, n) <==> exists k :: 0 <= k < n && f(log[k]).Some? && e == ExportAt(log, f, k)
  {
    if n > 0 {
      ExportHas(log, f, n - 1);
    }
  }

  lemma ExportParent(log: seq<Item>, f: Transform, a: Version, v: Version)
    requires Distinct(log) && Ordered(log) && Keeps(f)
    ensures Parent(Exported(log, f), a, v) <==> Passing(log, f, a) && Nearest(log, f, a, v)
  {
    var E := Exported(log, f);
    ExportHas(log, f, |log|);
    if Parent(E, a, v) {
      var i :| 0 <= i < |E| && E[i].v == a && v in E[i].pa;
      assert E[i] in E;
      var k :| 0 <= k < |log| && f(log[k]).Some? && E[i] == ExportAt(log, f, k);
      ParentsAreNearest(log, f, k, v);
    }
    if Passing(log, f, a) && Nearest(log, f, a, v) {
      var k :| 0 <= k < |log| && log[k].v == a && f(log[k]).Some?;
      ParentsAreNearest(log, f, k, v);
      assert ExportAt(log, f, k) in E;
    }
  }

  lemma NearestIsAncestor(log: seq<Item>, f: Transform, a: Version, v: Version)
    requires Nearest(log, f, a, v)
    ensures Anc(log, a, v) && Passing(log, f, v)
  {
    var p :| Parent(log, a, p) && Hop(log, f, p, v);
    var ps :| HopPath(log, f, ps, p, v);
    assert PathFrom(log, ps, p, v) && PathFrom(log, [a, p], a, p);
    AncTrans(log, a, p, v);
  }

  lemma {:induction false} ExportPathIsAncestry(log: seq<Item>, f: Transform, ps: seq<Version>, a: Version, b: Version)
    requires Distinct(log) && Ordered(log) && Keeps(f) && PathFrom(Exported(log, f), ps, a, b)
    ensures Anc(log, a, b)
    decreases |ps|
  {
    if |ps| == 1 {
      assert PathFrom(log, [a], a, a);
    } else {
      ExportParent(log, f, a, ps[1]);
      NearestIsAncestor(log, f, a, ps[1]);
      ExportPathIsAncestry(log, f, ps[1..], ps[1], b);
      AncTrans(log, a, ps[1], b);
    }
  }

  /** Some passing vertex comes first on the way to a passing vertex. */
  lemma FirstPassing(log: seq<Item>, f: Transform, ps: seq<Version>) returns (k: nat)
    requires Path(log, ps) && Passing(log, f, ps[|ps| - 1])
    ensures k < |ps| && Hop(log, f, ps[0], ps[k])
  {
    k := 0;
    while !Passing(log, f, ps[k])
      invariant k < |ps| && forall j :: 0 <= j < k ==> !Passing(log, f, ps[j])
      decreases |ps| - k
    {
      k := k + 1;
    }
    assert HopPath(log, f, ps[..k + 1], ps[0], ps[k]);
  }

  lemma {:induction false} PathIsExported(log: seq<Item>, f: Transform, ps: seq<Version>, a: Version, b: Version)
    requires Distinct(log) && Ordered(log) && Keeps(f) && PathFrom(log, ps, a, b)
    requires Passing(log, f, a) && Passing(log, f, b)
    ensures Anc(Exported(log, f), a, b)
    decreases |ps|
  {
    hide Exported, Keeps, Ordered, Distinct, Passing;
    var E := Exported(log, f);
    assert PathFrom(E, [a], a, a);
    if |ps| > 1 {
      var k := FirstPassing(log, f, ps[1..]);
      var w := ps[k + 1];
      assert Parent(log, a, ps[1]);
      assert Nearest(log, f, a, w);
      ExportParent(log, f, a, w);
      NearestIsAncestor(log, f, a, w);
      PathIsExported(log, f, ps[k + 1..], w, b);
      assert PathFrom(E, [a, w], a, w);
      AncTrans(E, a, w, b);
    }
  }

  /** Export preserves ancestry among the passing items, both ways. */
  lemma ExportKeepsAncestry(log: seq<Item>, f: Transform, a: Version, b: Version)
    requires Distinct(log) && Ordered(log) && Keeps(f) && Passing(log, f, a) && Passing(log, f, b)
    ensures Anc(Exported(log, f), a, b) <==> Anc(log, a, b)
  {
    if ps :| PathFrom(Exported(log, f), ps, a, b) {
      ExportPathIsAncestry(log, f, ps, a, b);
    }
    if ps :| PathFrom(log, ps, a, b) {
      PathIsExported(log, f, ps, a, b);
    }
  }

  // ---- growth ----

  lemma {:induction false} ConnectedGrows(log: seq<Item>, log': seq<Item>, f: Transform, pas: seq<Version>, bound: nat)
    requires log <= log' && Distinct(log') && Ordered(log) && Ordered(log') && bound <= |log|
    requires Below(log, pas, bound) && Below(log', pas, bound)
    ensures ConnectedParents(log, f, pas, bound) == ConnectedParents(log', f, pas, bound)
    decreases bound, |pas|
  {
    if pas != [] {
      var p := pas[|pas| - 1];
      ConnectedGrows(log, log', f, pas[..|pas| - 1], bound);
      assert p in pas;
      PosIs(log, p);
      PosKeeps(log, log', p);
      var k := Pos(log, p);
      assert log[k] == log'[k];
      if f(log[k]).None? {
        ConnectedGrows(log, log', f, log[k].pa, k);
      }
    }
  }

  /** What was exported stays what it was while the log grows. */
  lemma {:induction false} ExportGrows(log: seq<Item>, log': seq<Item>, f: Transform, n: nat)
    requires log <= log' && Distinct(log') && Ordered(log) && Ordered(log') && Keeps(f) && n <= |log|
    ensures ExportUpTo(log, f, n) == ExportUpTo(log', f, n)
  {
    hide ConnectedParents, Distinct, Conveys, EachOnce;
    if n > 0 {
      ExportGrows(log, log', f, n - 1);
      assert log[n - 1] == log'[n - 1];
      if f(log[n - 1]).Some? {
        ConnectedGrows(log, log', f, log[n - 1].pa, n - 1);
      }
    }
  }

  lemma {:induction false} ExportPrefix(log: seq<Item>, f: Transform, n: nat, m: nat)
    requires Ordered(log) && Keeps(f) && n <= m <= |log|
    ensures ExportUpTo(log, f, n) <= ExportUpTo(log, f, m)
    decreases m
  {
    if n < m {
      ExportPrefix(log, f, n, m - 1);
    }
  }

  // ---- acceptance ----

  /** The exported items as the receiving tree stores them. */
  ghost function Received(es: seq<Item>, remote: Name): seq<Item> {
    seq(|es|, j requires 0 <= j < |es| => es[j].(pe := Some(remote), i := Some(j + 1)))
  }

  ghost function Incoming(e: Item, remote: Name): (r: Item)
    ensures r.pe == Some(remote) && r == e.(pe := r.pe)
  {
    e.(pe := Some(remote))
  }

  /** Whether an empty tree named `remote` accepts the items one by one. */
  ghost predicate AcceptedOneByOne(es: seq<Item>, remote: Name) {
    forall j :: 0 <= j < |es| ==>
      Acceptable(Received(es[..j], remote), remote, [Incoming(es[j], remote)], Incoming(es[j], remote))
  }

  /** The positions of the exported items. */
  lemma {:induction false} ExportOrder(log: seq<Item>, f: Transform, n: nat) returns (at: seq<nat>)
    requires Distinct(log) && Ordered(log) && Keeps(f) && n <= |log|
    ensures var es := ExportUpTo(log, f, n);
      && |at| == |es| && (forall i, j :: 0 <= i < j < |at| ==> at[i] < at[j])
      && (forall j :: 0 <= j < |at| ==> at[j] < n && f(log[at[j]]).Some? && es[j] == ExportAt(log, f, at[j]))
      && (forall k :: 0 <= k < n && f(log[k]).Some? ==> k in at)
  {
    hide ExportUpTo, ExportAt, Distinct, Ordered, Keeps;
    OneMoreExported(log, f, n);
    if n == 0 {
      at := [];
    } else {
      at := ExportOrder(log, f, n - 1);
      if f(log[n - 1]).Some? {
        Put(at, n - 1);
        at := at + [n - 1];
      }
    }
  }

  lemma OneMoreExported(log: seq<Item>, f: Transform, n: nat)
    requires Distinct(log) && Ordered(log) && Keeps(f) && n <= |log|
    ensures if n == 0 then ExportUpTo(log, f, n) == [] else
      ExportUpTo(log, f, n) == ExportUpTo(log, f, n - 1) + if f(log[n - 1]).Some? then [ExportAt(log, f, n - 1)] else []
  {
  }

  lemma Put(at: seq<nat>, n: nat)
    requires (forall i, j :: 0 <= i < j < |at| ==> at[i] < at[j]) && forall j :: 0 <= j < |at| ==> at[j] < n
    ensures forall i, j :: 0 <= i < j < |at + [n]| ==> (at + [n])[i] < (at + [n])[j]
    ensures n in at + [n] && forall k :: k in at ==> k in at + [n]
  {
    assert (at + [n])[|at|] == n;
  }

  /** What goes over the wire for the item at position `k`: what the rules made of it, on its nearest passing ancestors. */
  ghost predicate SentFor(log: seq<Item>, f: Transform, k: nat, e: Item)
    requires k < |log|
  {
    && f(log[k]).Some? && Conveys(e, f(log[k]).value)
    && EachOnce(e.pa) && forall v :: v in e.pa <==> Nearest(log, f, log[k].v, v)
  }

  /** The whole export: for every passing item, in the order of the log, what the rules made of it. */
  lemma ExportedAre(log: seq<Item>, f: Transform) returns (at: seq<nat>)
    requires Distinct(log) && Ordered(log) && Keeps(f)
    ensures var es := Exported(log, f);
      && |at| == |es| && (forall i, j :: 0 <= i < j < |at| ==> at[i] < at[j])
      && (forall j :: 0 <= j < |at| ==> at[j] < |log| && SentFor(log, f, at[j], es[j]))
      && (forall k :: 0 <= k < |log| && f(log[k]).Some? ==> k in at)
  {
    hide ExportUpTo, ExportAt, Distinct, Ordered, Keeps, SentFor;
    at := ExportOrder(log, f, |log|);
    forall j | 0 <= j < |at| ensures SentFor(log, f, at[j], Exported(log, f)[j]) {
      SentAt(log, f, at[j]);
    }
  }

  lemma SentAt(log: seq<Item>, f: Transform, k: nat)
    requires Distinct(log) && Ordered(log) && Keeps(f) && k < |log| && f(log[k]).Some?
    ensures SentFor(log, f, k, ExportAt(log, f, k))
  {
    hide Distinct, Ordered, Keeps, Nearest, Conveys, EachOnce;
    forall v ensures v in ExportAt(log, f, k).pa <==> Nearest(log, f, log[k].v, v) {
      ParentsAreNearest(log, f, k, v);
    }
  }

  /** Exported items are linked to earlier exported items of the same id. */
  lemma ExportLinked(c: Conf, log: seq<Item>, f: Transform)
    requires WF(c, log) && Keeps(f)
    ensures Ordered(log) && Linked(Exported(log, f)) && Distinct(Exported(log, f))
  {
    hide WF, Ordered, Keeps, ConnectedParents, Nearest, ExportUpTo;
    WFOrdered(c, log);
    var es := Exported(log, f);
    var at := ExportOrder(log, f, |log|);
    forall k | 0 <= k < |es| ensures es[k].v == log[at[k]].v && es[k].id == log[at[k]].id {
      ExportKeeps(log, f, at[k]);
    }
    forall k, p | 0 <= k < |es| && p in es[k].pa ensures Earlier(es, k, p) {
      ParentsAreNearest(log, f, at[k], p);
      var q := NearestBefore(c, log, f, at[k], p);
      assert q in at;
      var j :| 0 <= j < |at| && at[j] == q;
      assert es[j].v == p && es[j].id == es[k].id;
    }
    forall i, j | 0 <= i < j < |es| ensures es[i].v != es[j].v {
      assert log[at[i]].v != log[at[j]].v;
    }
  }

  lemma ExportKeeps(log: seq<Item>, f: Transform, k: nat)
    requires Ordered(log) && Keeps(f) && k < |log| && f(log[k]).Some?
    ensures ExportAt(log, f, k).v == log[k].v && ExportAt(log, f, k).id == log[k].id
  {
  }

  lemma NearestBefore(c: Conf, log: seq<Item>, f: Transform, k: nat, v: Version) returns (q: nat)
    requires WF(c, log) && k < |log| && Nearest(log, f, log[k].v, v)
    ensures q < k && log[q].v == v && f(log[q]).Some? && log[q].id == log[k].id
  {
    var p :| Parent(log, log[k].v, p) && Hop(log, f, p, v);
    var ps :| HopPath(log, f, ps, p, v);
    q :| 0 <= q < |log| && log[q].v == v && f(log[q]).Some?;
    assert PathFrom(log, ps, p, v) && PathFrom(log, [log[k].v, p], log[k].v, p);
    AncTrans(log, log[k].v, p, v);
    var j := ParentBefore(c, log, k, p);
    AncBefore(c, log, j, q);
  }

  /** Ancestors are stored earlier and have the same id. */
  lemma AncBefore(c: Conf, log: seq<Item>, k: nat, q: nat)
    requires WF(c, log) && k < |log| && q < |log| && Anc(log, log[k].v, log[q].v)
    ensures q <= k && log[q].id == log[k].id
  {
    var ps :| PathFrom(log, ps, log[k].v, log[q].v);
    PathBefore(c, log, ps, k, q);
  }

  lemma {:induction false} PathBefore(c: Conf, log: seq<Item>, ps: seq<Version>, k: nat, q: nat)
    requires WF(c, log) && k < |log| && q < |log| && PathFrom(log, ps, log[k].v, log[q].v)
    ensures q <= k && log[q].id == log[k].id
    decreases |ps|
  {
    if |ps| > 1 {
      assert Parent(log, ps[0], ps[1]);
      var j := ParentBefore(c, log, k, ps[1]);
      PathBefore(c, log, ps[1..], j, q);
    }
  }

  lemma ReceivedHas(es: seq<Item>, j: nat, remote: Name)
    requires j <= |es|
    ensures forall v :: Has(Received(es[..j], remote), v) <==> exists k :: 0 <= k < j && es[k].v == v
    ensures forall id :: HasId(Received(es[..j], remote), id) <==> exists k :: 0 <= k < j && es[k].id == id
    ensures forall id, v :: HasOf(Received(es[..j], remote), id, v) <==> exists k :: 0 <= k < j && es[k].id == id && es[k].v == v
  {
    var R := Received(es[..j], remote);
    assert forall k :: 0 <= k < j ==> R[k].v == es[k].v && R[k].id == es[k].id;
  }

  /** Linked items are accepted one by one exactly when each id starts with its only root. */
  lemma AcceptedIffOneRoot(es: seq<Item>, remote: Name)
    requires Linked(es) && Distinct(es)
    ensures AcceptedOneByOne(es, remote) <==> OneRoot(es)
  {
    forall j | 0 <= j < |es|
      ensures Acceptable(Received(es[..j], remote), remote, [Incoming(es[j], remote)], Incoming(es[j], remote))
              <==> (es[j].pa == [] ==> forall k :: 0 <= k < j ==> es[k].id != es[j].id)
    {
      ReceivedHas(es, j, remote);
      forall p | p in es[j].pa ensures HasOf(Received(es[..j], remote), es[j].id, p) {
        assert Earlier(es, j, p);
      }
    }
  }

  /** A proper ancestor that passes. */
  ghost predicate HasPassingAncestor(log: seq<Item>, f: Transform, v: Version) {
    exists w :: Passing(log, f, w) && w != v && Anc(log, v, w)
  }

  /** Of two passing items of one id, the later one descends from a passing item. */
  ghost predicate OneEntry(log: seq<Item>, f: Transform) {
    forall j, k :: 0 <= j < k < |log| && log[j].id == log[k].id && f(log[j]).Some? && f(log[k]).Some? ==>
      HasPassingAncestor(log, f, log[k].v)
  }

  lemma Different(log: seq<Item>, q: nat, k: nat)
    requires Distinct(log) && q < k < |log|
    ensures log[q].v != log[k].v
  {
  }

  lemma NoParentsIff(c: Conf, log: seq<Item>, f: Transform, k: nat)
    requires WF(c, log) && Ordered(log) && Keeps(f) && k < |log| && f(log[k]).Some?
    ensures ExportAt(log, f, k).pa == [] <==> !HasPassingAncestor(log, f, log[k].v)
  {
    hide WF, Ordered, Distinct, Keeps, ConnectedParents;
    WFOrdered(c, log);
    var a := log[k].v;
    var pa := ExportAt(log, f, k).pa;
    if pa != [] {
      ParentsAreNearest(log, f, k, pa[0]);
      assert pa[0] in pa;
      NearestIsAncestor(log, f, a, pa[0]);
      var q := NearestBefore(c, log, f, k, pa[0]);
      Different(log, q, k);
      assert Passing(log, f, pa[0]) && pa[0] != a;
    }
    if w :| Passing(log, f, w) && w != a && Anc(log, a, w) {
      var ps :| PathFrom(log, ps, a, w);
      var i := FirstPassing(log, f, ps[1..]);
      assert Parent(log, a, ps[1]);
      assert Nearest(log, f, a, ps[1..][i]);
      ParentsAreNearest(log, f, k, ps[1..][i]);
    }
  }

  /** Roots of the export and entry points of the log are the same thing. */
  lemma RootsAreEntries(log: seq<Item>, f: Transform, es: seq<Item>, at: seq<nat>)
    requires |at| == |es| && forall i, j :: 0 <= i < j < |at| ==> at[i] < at[j]
    requires forall j :: 0 <= j < |at| ==> at[j] < |log| && f(log[at[j]]).Some? && es[j].id == log[at[j]].id
    requires forall j :: 0 <= j < |at| ==> (es[j].pa == [] <==> !HasPassingAncestor(log, f, log[at[j]].v))
    requires forall k :: 0 <= k < |log| && f(log[k]).Some? ==> k in at
    ensures OneRoot(es) <==> OneEntry(log, f)
  {
    hide HasPassingAncestor;
    if OneRoot(es) {
      forall j, k | 0 <= j < k < |log| && log[j].id == log[k].id && f(log[j]).Some? && f(log[k]).Some?
        ensures HasPassingAncestor(log, f, log[k].v)
      {
        var x :| 0 <= x < |at| && at[x] == j;
        var y :| 0 <= y < |at| && at[y] == k;
        assert es[x].id == es[y].id;
      }
    }
    if OneEntry(log, f) {
      forall x, y | 0 <= x < y < |es| && es[y].pa == [] ensures es[x].id != es[y].id {
        assert at[x] < at[y];
      }
    }
  }

  /**
   * The whole export is accepted by an empty tree exactly when no id has two passing items
   * without passing ancestors.
   */
  lemma ExportAccepted(c: Conf, log: seq<Item>, f: Transform, remote: Name)
    requires WF(c, log) && Keeps(f)
    ensures Ordered(log) && (AcceptedOneByOne(Exported(log, f), remote) <==> OneEntry(log, f))
  {
    hide WF, Linked, Ordered, Distinct, HasPassingAncestor, ConnectedParents, OneRoot, OneEntry, AcceptedOneByOne;
    WFOrdered(c, log);
    ExportLinked(c, log, f);
    var es := Exported(log, f);
    AcceptedIffOneRoot(es, remote);
    var at := ExportOrder(log, f, |log|);
    forall k | 0 <= k < |es|
      ensures es[k].id == log[at[k]].id && (es[k].pa == [] <==> !HasPassingAncestor(log, f, log[at[k]].v))
    {
      NoParentsIff(c, log, f, at[k]);
    }
    RootsAreEntries(log, f, es, at);
  }

  /** If every root passes, the whole export is accepted. */
  lemma RootsPassAccepted(c: Conf, log: seq<Item>, f: Transform, remote: Name)
    requires WF(c, log) && OneRoot(log) && Keeps(f)
    requires forall k :: 0 <= k < |log| && log[k].pa == [] ==> f(log[k]).Some?
    ensures Ordered(log) && AcceptedOneByOne(Exported(log, f), remote)
  {
    forall j, k | 0 <= j < k < |log| && log[j].id == log[k].id && f(log[j]).Some? && f(log[k]).Some?
      ensures HasPassingAncestor(log, f, log[k].v)
    {
      var r := ReachesRoot(c, log, k);
      assert Passing(log, f, log[r].v);
      assert r != k && log[r].v != log[k].v;
    }
    ExportAccepted(c, log, f, remote);
  }

  /** Items accepted one by one leave the receiving tree well formed, numbered from one. */
  lemma {:induction false} AcceptedWF(c: Conf, es: seq<Item>, remote: Name, n: nat)
    requires AcceptedOneByOne(es, remote) && n <= |es| && c.name == remote && |remote| < 256
    requires forall j :: 0 <= j < |es| ==> Fitting(c, es[j]) && es[j].v !in es[j].pa
    ensures WF(c, Received(es[..n], remote))
    ensures n > 0 ==> Received(es[..n], remote) == Appended(Received(es[..n - 1], remote), [Incoming(es[n - 1], remote)])
  {
    if n > 0 {
      AcceptedWF(c, es, remote, n - 1);
      var R := Received(es[..n - 1], remote);
      var items := [Incoming(es[n - 1], remote)];
      assert BatchFor(c, R, items);
      assert Acceptable(R, remote, items, items[0]);
      AppendWF(c, R, items, 1);
      assert items[..1] == items;
      ReceivedStep(es, remote, n, R, items);
    }
  }

  lemma ReceivedStep(es: seq<Item>, remote: Name, n: nat, R: seq<Item>, items: seq<Item>)
    requires 0 < n <= |es| && R == Received(es[..n - 1], remote) && items == [Incoming(es[n - 1], remote)]
    requires Acceptable(R, remote, items, items[0])
    ensures Received(es[..n], remote) == Appended(R, items)
  {
    hide News, Has;
    NewsOne(R, items[0]);
    assert LastI(R) == n - 1;
  }
}
