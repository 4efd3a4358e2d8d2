/**
 * The contents of a tree as the sequence of its items in insertion order, what keeps it well
 * formed, and which batches may be appended.
 */
module Log {
  import opened Items
  import opened Dag
  import opened Keys

  /** The sizes the keys of an item need. */
  ghost predicate Fitting(c: Conf, it: Item) {
    && TextId(it.id.bytes) && |it.v.bytes| == c.vSize
    && (forall p :: p in it.pa ==> |p.bytes| == c.vSize)
    && (it.pe.Some? ==> |it.pe.value| < 256)
  }

  function Num(it: Item): nat {
    if it.i.Some? then it.i.value else 0
  }

  function LastI(log: seq<Item>): nat {
    if log == [] then 0 else Num(log[|log| - 1])
  }

  ghost predicate Numbered(log: seq<Item>) {
    && (forall k :: 0 <= k < |log| ==> log[k].i.Some? && 0 < Num(log[k]))
    && (forall j, k :: 0 <= j < k < |log| ==> Num(log[j]) < Num(log[k]))
  }

  /** The item at `k` names a version of the same id stored before it. */
  ghost predicate Earlier(log: seq<Item>, k: nat, p: Version)
    requires k < |log|
  {
    exists j :: 0 <= j < k && log[j].v == p && log[j].id == log[k].id
  }

  ghost predicate Linked(log: seq<Item>) {
    forall k, p :: 0 <= k < |log| && p in log[k].pa ==> Earlier(log, k, p)
  }

  /** Only the first item of an id is a root. */
  ghost predicate OneRoot(log: seq<Item>) {
    forall j, k :: 0 <= j < k < |log| && log[k].pa == [] ==> log[j].id != log[k].id
  }

  ghost predicate WF(c: Conf, log: seq<Item>) {
    && (forall k :: 0 <= k < |log| ==> Fitting(c, log[k]))
    && Numbered(log) && Distinct(log) && Linked(log)
  }

  /** No item of the log descends directly from `v`. */
  ghost predicate Childless(log: seq<Item>, v: Version) {
    forall k :: 0 <= k < |log| ==> v !in log[k].pa
  }

  ghost predicate HasId(log: seq<Item>, id: Id) {
    exists k :: 0 <= k < |log| && log[k].id == id
  }

  ghost predicate HasOf(log: seq<Item>, id: Id, v: Version) {
    exists k :: 0 <= k < |log| && log[k].id == id && log[k].v == v
  }

  // ---- what a well-formed log guarantees ----

  /** The newest item of an id has no children. */
  lemma NewestIsHead(c: Conf, log: seq<Item>, k: nat)
    requires WF(c, log) && k < |log| && forall m :: k < m < |log| ==> log[m].id != log[k].id
    ensures Childless(log, log[k].v)
  {
  }

  /** An id with items has a head. */
  lemma {:induction false} IdHasHead(c: Conf, log: seq<Item>, n: nat, id: Id) returns (k: nat)
    requires WF(c, log) && n <= |log| && HasId(log[..n], id) && forall m :: n <= m < |log| ==> log[m].id != id
    ensures k < |log| && log[k].id == id && Childless(log, log[k].v)
    decreases n
  {
    hide WF;
    var j :| 0 <= j < n && log[..n][j].id == id;
    if log[n - 1].id == id {
      k := n - 1;
      NewestIsHead(c, log, k);
    } else {
      assert log[..n - 1][j].id == id;
      k := IdHasHead(c, log, n - 1, id);
    }
  }

  /** Every item reaches a root of its id; if only first items are roots, the id has no other. */
  lemma {:induction false} ReachesRoot(c: Conf, log: seq<Item>, k: nat) returns (r: nat)
    requires WF(c, log) && k < |log|
    ensures r <= k && log[r].id == log[k].id && log[r].pa == [] && Anc(log, log[k].v, log[r].v)
    ensures OneRoot(log) ==> forall m :: 0 <= m < |log| && log[m].id == log[k].id && log[m].pa == [] ==> m == r
    decreases k
  {
    if log[k].pa == [] {
      r := k;
      assert PathFrom(log, [log[k].v], log[k].v, log[k].v);
    } else {
      var p := log[k].pa[0];
      assert Earlier(log, k, p);
      var j :| 0 <= j < k && log[j].v == p && log[j].id == log[k].id;
      r := ReachesRoot(c, log, j);
      assert Parent(log, log[k].v, p);
      assert PathFrom(log, [log[k].v, p], log[k].v, p);
      AncTrans(log, log[k].v, p, log[r].v);
    }
  }

  // ---- appending a batch ----

  /** What is asked of a batch: parents first, no version twice, one id per graph. */
  ghost predicate BatchOk(c: Conf, items: seq<Item>) {
    && (forall k :: 0 <= k < |items| ==> Fitting(c, items[k]))
    && Distinct(items)
    && (forall j, k :: 0 <= j < |items| && 0 <= k < |items| && items[j].v in items[k].pa ==>
          j < k && items[j].id == items[k].id)
  }

  /** The same, asked only of the versions that are not in the log yet. */
  ghost predicate BatchFor(c: Conf, log: seq<Item>, items: seq<Item>) {
    && (forall k :: 0 <= k < |items| ==> Fitting(c, items[k]))
    && (forall j, k :: 0 <= j < k < |items| && items[j].v == items[k].v ==> Has(log, items[j].v))
    && (forall j, k :: 0 <= j < |items| && 0 <= k < |items| && items[j].v in items[k].pa && !Has(log, items[j].v) ==>
          j < k && items[j].id == items[k].id)
  }

  lemma BatchOkFor(c: Conf, log: seq<Item>, items: seq<Item>)
    requires BatchOk(c, items)
    ensures BatchFor(c, log, items)
  {
  }

  /** The item is new and connects: a root of a new id, or all parents are known or on their way. */
  ghost predicate Connects(log: seq<Item>, items: seq<Item>, it: Item) {
    && !Has(log, it.v)
    && (it.pa == [] ==> !HasId(log, it.id))
    && (forall p :: p in it.pa ==> HasOf(log, it.id, p) || (!Has(log, p) && Has(items, p)))
  }

  /** The item is known already and comes from another perspective. */
  ghost predicate Repeats(log: seq<Item>, name: Name, it: Item) {
    HasOf(log, it.id, it.v) && it.pe.Some? && it.pe.value != name
  }

  ghost predicate Acceptable(log: seq<Item>, name: Name, items: seq<Item>, it: Item) {
    Connects(log, items, it) || Repeats(log, name, it)
  }

  /** The items of the batch that are not in the log yet, in order. */
  ghost function News(log: seq<Item>, items: seq<Item>): seq<Item> {
    if items == [] then [] else
      News(log, items[..|items| - 1]) + if Has(log, items[|items| - 1].v) then [] else [items[|items| - 1]]
  }

  lemma NewsOne(log: seq<Item>, it: Item)
    ensures News(log, [it]) == if Has(log, it.v) then [] else [it]
  {
    assert [it][..0] == [];
  }

  /** Number the items consecutively after `i`. */
  ghost function Stamp(items: seq<Item>, i: nat): (r: seq<Item>)
    ensures |r| == |items|
    ensures forall k :: 0 <= k < |items| ==> r[k] == items[k].(i := Some(i + k + 1))
  {
    seq(|items|, k requires 0 <= k < |items| => items[k].(i := Some(i + k + 1)))
  }

  ghost function Appended(log: seq<Item>, items: seq<Item>): seq<Item> {
    log + Stamp(News(log, items), LastI(log))
  }

  lemma {:induction false} NewsAre(log: seq<Item>, items: seq<Item>, it: Item)
    ensures it in News(log, items) <==> it in items && !Has(log, it.v)
    ensures |News(log, items)| <= |items|
  {
    if items != [] {
      var n := |items| - 1;
      NewsAre(log, items[..n], it);
      assert items == items[..n] + [items[n]];
    }
  }

  /** Appending an acceptable batch keeps the log well formed. */
  lemma {:induction false} AppendWF(c: Conf, log: seq<Item>, items: seq<Item>, n: nat)
    requires WF(c, log) && BatchFor(c, log, items) && n <= |items|
    requires forall k :: 0 <= k < |items| ==> Acceptable(log, c.name, items, items[k])
    ensures WF(c, Appended(log, items[..n]))
    decreases n
  {
    if n == 0 {
      assert Appended(log, items[..0]) == log;
    } else {
      AppendWF(c, log, items, n - 1);
      var it := items[n - 1];
      var L := Appended(log, items[..n - 1]);
      assert items[..n][..n - 1] == items[..n - 1];
      if Has(log, it.v) {
        assert Appended(log, items[..n]) == L;
      } else {
        var it' := it.(i := Some(LastI(L) + 1));
        AppendedStep(log, items, n);
        AppendedHas(log, items, n - 1);
        assert Acceptable(log, c.name, items, it);
        OneMore(c, log, items, n - 1, it');
      }
    }
  }

  lemma AppendedStep(log: seq<Item>, items: seq<Item>, n: nat)
    requires 0 < n <= |items| && !Has(log, items[n - 1].v)
    ensures var L := Appended(log, items[..n - 1]);
      Appended(log, items[..n]) == L + [items[n - 1].(i := Some(LastI(L) + 1))]
  {
    assert items[..n][..n - 1] == items[..n - 1];
    var N := News(log, items[..n - 1]);
    assert News(log, items[..n]) == N + [items[n - 1]];
    assert Stamp(N + [items[n - 1]], LastI(log)) == Stamp(N, LastI(log)) + [items[n - 1].(i := Some(LastI(log) + |N| + 1))];
    assert LastI(Appended(log, items[..n - 1])) == LastI(log) + |N|;
  }

  /** Which versions and ids the extended log holds. */
  lemma AppendedHas(log: seq<Item>, items: seq<Item>, n: nat)
    requires n <= |items|
    ensures forall k :: 0 <= k < |Appended(log, items[..n])| ==>
              k < |log| || exists j :: (0 <= j < n && !Has(log, items[j].v)
                                        && Appended(log, items[..n])[k] == items[j].(i := Appended(log, items[..n])[k].i))
    ensures forall j :: 0 <= j < n && !Has(log, items[j].v) ==> HasOf(Appended(log, items[..n]), items[j].id, items[j].v)
  {
    var N := News(log, items[..n]);
    var L := Appended(log, items[..n]);
    forall k | |log| <= k < |L|
      ensures exists j :: 0 <= j < n && L[k] == items[j].(i := L[k].i) && !Has(log, items[j].v)
    {
      var it := N[k - |log|];
      NewsAre(log, items[..n], it);
      var j :| 0 <= j < |items[..n]| && items[..n][j] == it;
      assert L[k] == items[j].(i := L[k].i);
    }
    forall j | 0 <= j < n && !Has(log, items[j].v) ensures HasOf(L, items[j].id, items[j].v) {
      assert items[..n][j] == items[j];
      NewsAre(log, items[..n], items[j]);
      var k :| 0 <= k < |N| && N[k] == items[j];
      assert L[|log| + k] == items[j].(i := L[|log| + k].i);
    }
  }

  /** One more item of the batch. */
  lemma OneMore(c: Conf, log: seq<Item>, items: seq<Item>, n: nat, it: Item)
    requires WF(c, log) && BatchFor(c, log, items) && n < |items| && it == items[n].(i := it.i)
    requires forall k :: 0 <= k < |items| ==> Acceptable(log, c.name, items, items[k])
    requires var L := Appended(log, items[..n]); WF(c, L) && it.i == Some(LastI(L) + 1)
    requires !Has(log, it.v)
    ensures WF(c, Appended(log, items[..n]) + [it])
  {
    hide Appended, Acceptable;
    var L := Appended(log, items[..n]);
    forall k | 0 <= k < |L| ensures L[k].v != it.v {
      NotThere(c, log, items, n, k);
    }
    forall p | p in it.pa ensures Earlier(L + [it], |L|, p) {
      NewParent(c, log, items, n, it, p);
    }
    LinkedGrows(L, it);
    Extend(c, L, it);
  }

  /** A log stays well formed with a fitting, new, connected item numbered next. */
  lemma Extend(c: Conf, L: seq<Item>, it: Item)
    requires WF(c, L) && Fitting(c, it) && it.i == Some(LastI(L) + 1) && Linked(L + [it])
    requires forall k :: 0 <= k < |L| ==> L[k].v != it.v
    ensures WF(c, L + [it])
  {
  }

  lemma NewParent(c: Conf, log: seq<Item>, items: seq<Item>, n: nat, it: Item, p: Version)
    requires BatchFor(c, log, items) && n < |items| && it == items[n].(i := it.i) && p in it.pa && !Has(log, it.v)
    requires Acceptable(log, c.name, items, items[n])
    ensures Earlier(Appended(log, items[..n]) + [it], |Appended(log, items[..n])|, p)
  {
    var L := Appended(log, items[..n]);
    var M := L + [it];
    AppendedHas(log, items, n);
    if k :| 0 <= k < |log| && log[k].id == it.id && log[k].v == p {
      assert M[k] == log[k];
    } else {
      var j :| 0 <= j < |items| && items[j].v == p;
      assert HasOf(L, items[j].id, items[j].v);
      var k :| 0 <= k < |L| && L[k].id == items[j].id && L[k].v == p;
      assert M[k] == L[k];
    }
  }

  lemma LinkedGrows(log: seq<Item>, it: Item)
    requires Linked(log) && forall p :: p in it.pa ==> Earlier(log + [it], |log|, p)
    ensures Linked(log + [it])
  {
    var M := log + [it];
    forall k, p | 0 <= k < |M| && p in M[k].pa ensures Earlier(M, k, p) {
      if k < |log| {
        assert Earlier(log, k, p);
        var j :| 0 <= j < k && log[j].v == p && log[j].id == log[k].id;
        assert M[j] == log[j];
      }
    }
  }

  /** The next new item of the batch has a new version. */
  lemma NotThere(c: Conf, log: seq<Item>, items: seq<Item>, n: nat, k: nat)
    requires WF(c, log) && BatchFor(c, log, items) && n < |items|
    requires k < |Appended(log, items[..n])| && !Has(log, items[n].v)
    ensures Appended(log, items[..n])[k].v != items[n].v
  {
    hide WF;
    var L := Appended(log, items[..n]);
    AppendedHas(log, items, n);
    if k < |log| {
      assert L[k] == log[k];
    } else {
      var j :| 0 <= j < n && L[k] == items[j].(i := L[k].i) && !Has(log, items[j].v);
    }
  }

  // ---- one root per id ----

  /** No two new items of the batch are roots of one id. */
  ghost predicate OneRootEach(log: seq<Item>, items: seq<Item>) {
    forall j, k :: 0 <= j < k < |items| && items[j].pa == [] && items[k].pa == [] && items[j].id == items[k].id ==>
      Has(log, items[j].v) || Has(log, items[k].v)
  }

  /**
   * An accepted batch keeps one root per id exactly when it does not itself bring two: a root is
   * checked against the tree, but not against the rest of its batch.
   */
  lemma RootsAfter(c: Conf, log: seq<Item>, items: seq<Item>)
    requires WF(c, log) && BatchFor(c, log, items) && OneRoot(log)
    requires forall k :: 0 <= k < |items| ==> Acceptable(log, c.name, items, items[k])
    ensures OneRoot(Appended(log, items)) <==> OneRootEach(log, items)
  {
    hide WF, BatchFor;
    var L := Appended(log, items);
    assert items[..|items|] == items;
    AppendWF(c, log, items, |items|);
    if OneRoot(L) {
      forall j, k | 0 <= j < k < |items| && items[j].pa == [] && items[k].pa == [] && items[j].id == items[k].id
        ensures Has(log, items[j].v) || Has(log, items[k].v)
      {
        NewRoots(c, log, items, j, k);
      }
    }
    if OneRootEach(log, items) {
      forall x, y | 0 <= x < y < |L| && L[y].pa == [] ensures L[x].id != L[y].id {
        if L[x].id == L[y].id && y >= |log| {
          SecondRoot(c, log, items, x, y);
        }
      }
    }
  }

  /** The batch item behind a position of the extended log. */
  lemma FromBatch(log: seq<Item>, items: seq<Item>, x: nat) returns (j: nat)
    requires |log| <= x < |Appended(log, items)|
    ensures j < |items| && !Has(log, items[j].v) && Appended(log, items)[x] == items[j].(i := Appended(log, items)[x].i)
  {
    assert items[..|items|] == items;
    AppendedHas(log, items, |items|);
    var L := Appended(log, items);
    j :| 0 <= j < |items| && !Has(log, items[j].v) && L[x] == items[j].(i := L[x].i);
  }

  /** The position of a new batch item in the extended log. */
  lemma ToLog(c: Conf, log: seq<Item>, items: seq<Item>, j: nat) returns (x: nat)
    requires BatchFor(c, log, items) && j < |items| && !Has(log, items[j].v)
    ensures |log| <= x < |Appended(log, items)| && Appended(log, items)[x] == items[j].(i := Appended(log, items)[x].i)
  {
    hide Fitting;
    assert items[..|items|] == items;
    AppendedHas(log, items, |items|);
    var L := Appended(log, items);
    x :| 0 <= x < |L| && L[x].id == items[j].id && L[x].v == items[j].v;
    var k := FromBatch(log, items, x);
    assert k == j;
  }

  lemma NewRoots(c: Conf, log: seq<Item>, items: seq<Item>, j: nat, k: nat)
    requires BatchFor(c, log, items) && OneRoot(Appended(log, items)) && j < k < |items|
    requires items[j].pa == [] && items[k].pa == [] && items[j].id == items[k].id
    ensures Has(log, items[j].v) || Has(log, items[k].v)
  {
    hide Appended, Fitting;
    if !Has(log, items[j].v) && !Has(log, items[k].v) {
      var x := ToLog(c, log, items, j);
      var y := ToLog(c, log, items, k);
    }
  }

  lemma SecondRoot(c: Conf, log: seq<Item>, items: seq<Item>, x: nat, y: nat)
    requires WF(c, Appended(log, items)) && x < y < |Appended(log, items)| && |log| <= y
    requires forall k :: 0 <= k < |items| ==> Acceptable(log, c.name, items, items[k])
    requires var L := Appended(log, items); L[y].pa == [] && L[x].id == L[y].id
    ensures !OneRootEach(log, items)
  {
    var L := Appended(log, items);
    var b := FromBatch(log, items, y);
    assert Acceptable(log, c.name, items, items[b]);
    var r := ReachesRoot(c, L, x);
    if r >= |log| {
      var a := FromBatch(log, items, r);
      assert L[r].v != L[y].v;
    }
  }

  /** Two roots of one new id in one batch are both accepted. */
  lemma TwoRootsAccepted(c: Conf, a: Item, b: Item)
    requires Ok(c) && Fitting(c, a) && Fitting(c, b) && a.pa == [] && b.pa == [] && a.id == b.id && a.v != b.v
    ensures WF(c, []) && BatchFor(c, [], [a, b]) && OneRoot([])
    ensures forall k :: 0 <= k < 2 ==> Acceptable([], c.name, [a, b], [a, b][k])
    ensures !OneRoot(Appended([], [a, b]))
  {
    RootsAfter(c, [], [a, b]);
    assert [a, b][0] == a && [a, b][1] == b;
  }
}
