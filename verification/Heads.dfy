/** Trees in which every id has at most one head. */
module Heads {
  import opened Items
  import opened Dag
  import opened Keys
  import opened Log
  import opened Index
  import opened Stream

  /** At most one version of an id has no children. */
  ghost predicate OneHead(log: seq<Item>) {
    forall id, v, w :: HasOf(log, id, v) && Childless(log, v) && HasOf(log, id, w) && Childless(log, w) ==> v == w
  }

  ghost predicate IsHeadOf(log: seq<Item>, id: Id, head: Option<Version>) {
    match head
    case None => !HasId(log, id)
    case Some(v) => HasOf(log, id, v) && Childless(log, v)
  }

  /** One more item leaves one head exactly when its id is new or it is put on top of the head. */
  lemma OnHead(c: Conf, log: seq<Item>, it: Item, head: Option<Version>)
    requires WF(c, log + [it]) && OneHead(log) && IsHeadOf(log, it.id, head)
    ensures OneHead(log + [it]) <==> (head.Some? ==> head.value in it.pa)
  {
    hide WF;
    var L := log + [it];
    if head.Some? && head.value !in it.pa {
      HeadGrows(c, log, it, it.id, head.value);
      HeadGrows(c, log, it, it.id, it.v);
      LastIsNew(c, log, it, head.value);
      assert !OneHead(L);
    } else {
      forall id, v, w | HasOf(L, id, v) && Childless(L, v) && HasOf(L, id, w) && Childless(L, w) ensures v == w {
        HeadGrows(c, log, it, id, v);
        HeadGrows(c, log, it, id, w);
        if id == it.id && head.None? {
          NoneOfId(log, id);
        }
      }
    }
  }

  lemma LastIsNew(c: Conf, log: seq<Item>, it: Item, v: Version)
    requires WF(c, log + [it]) && HasOf(log, it.id, v)
    ensures v != it.v
  {
    var k :| 0 <= k < |log| && log[k].id == it.id && log[k].v == v;
    assert (log + [it])[k].v != (log + [it])[|log|].v;
  }

  lemma NoneOfId(log: seq<Item>, id: Id)
    requires !HasId(log, id)
    ensures forall v :: !HasOf(log, id, v)
  {
  }

  /** All items of an id, newest first. */
  function Backward(id: Id, last: Option<Version>): Opts {
    Opts(Some(id), None, last, false, false, true)
  }

  /** The reversed stream of an id starts with its head. */
  lemma NewestFirst(c: Conf, log: seq<Item>, id: Id, head: Option<Version>)
    requires WF(c, log) && OneHead(log) && IsHeadOf(log, id, head)
    ensures var s := Wanted(log, Backward(id, None));
      && (s == [] <==> head.None?) && (head.Some? ==> s != [] && s[0].v == head.value)
      && (forall k :: 0 <= k < |s| ==> s[k].id == id && s[k] in log)
  {
    hide OneHead, WF, Childless, Wanted, Matches;
    var ps := BackwardPositions(log, id);
    var s := Wanted(log, Backward(id, None));
    if head.Some? {
      var j :| 0 <= j < |log| && log[j].id == id && log[j].v == head.value;
      assert j in ps;
    }
    if ps != [] {
      LastPosition(c, log, id, ps);
      assert HasOf(log, id, s[0].v);
      SameHead(log, id, s[0].v, head.value);
    }
  }

  lemma BackwardPositions(log: seq<Item>, id: Id) returns (ps: seq<nat>)
    ensures forall i, j :: 0 <= i < j < |ps| ==> ps[i] < ps[j]
    ensures forall p: nat :: p in ps <==> p < |log| && log[p].id == id
    ensures var s := Wanted(log, Backward(id, None));
      |s| == |ps| && forall k :: 0 <= k < |s| ==> ps[|ps| - 1 - k] < |log| && s[k] == log[ps[|ps| - 1 - k]] && s[k].id == id
  {
    hide Positions, Slice, Reversed;
    ps := Positions(log, 0, |log|, Some(id));
    PositionsAre(log, 0, |log|, Some(id));
    assert Wanted(log, Backward(id, None)) == Reversed(Slice(log, ps));
    ReversedSlice(log, id, ps);
  }

  lemma ReversedSlice(log: seq<Item>, id: Id, ps: seq<nat>)
    requires forall j :: 0 <= j < |ps| ==> ps[j] < |log| && log[ps[j]].id == id
    ensures var s := Reversed(Slice(log, ps));
      |s| == |ps| && forall k :: 0 <= k < |s| ==> s[k] == log[ps[|ps| - 1 - k]] && s[k].id == id
  {
  }

  /** The item at the last position of an id is a head. */
  lemma LastPosition(c: Conf, log: seq<Item>, id: Id, ps: seq<nat>)
    requires WF(c, log) && ps != [] && forall i, j :: 0 <= i < j < |ps| ==> ps[i] < ps[j]
    requires forall p: nat :: p in ps <==> p < |log| && log[p].id == id
    ensures ps[|ps| - 1] < |log| && log[ps[|ps| - 1]].id == id && Childless(log, log[ps[|ps| - 1]].v)
  {
    hide WF;
    var n := ps[|ps| - 1];
    assert n in ps;
    assert forall m :: m in ps ==> m <= n;
    NewestIsHead(c, log, n);
  }

  lemma SameHead(log: seq<Item>, id: Id, v: Version, w: Version)
    requires OneHead(log) && HasOf(log, id, v) && Childless(log, v) && HasOf(log, id, w) && Childless(log, w)
    ensures v == w
  {
  }

  lemma SameHeads(log: seq<Item>, id: Id, a: Option<Version>, b: Option<Version>)
    requires OneHead(log) && IsHeadOf(log, id, a) && IsHeadOf(log, id, b)
    ensures a == b
  {
    forall v | HasOf(log, id, v) ensures HasId(log, id) {
    }
    if a.Some? && b.Some? {
      SameHead(log, id, a.value, b.value);
    }
  }

  /** An item just appended is a head. */
  lemma NewestIsNewHead(c: Conf, log: seq<Item>, it: Item)
    requires WF(c, log + [it])
    ensures IsHeadOf(log + [it], it.id, Some(it.v))
  {
    HeadGrows(c, log, it, it.id, it.v);
  }

  // ---- several new items of one id ----

  /** Only one of the items is named by no other. */
  ghost predicate OneTip(items: seq<Item>) {
    forall v, w :: Has(items, v) && Childless(items, v) && Has(items, w) && Childless(items, w) ==> v == w
  }

  /** New items go on from the head: a single one of them has no children, and one of them is a child of the head. */
  ghost predicate GoesOn(news: seq<Item>, head: Option<Version>) {
    news == [] || (OneTip(news) && (head.Some? ==> !Childless(news, head.value)))
  }

  ghost predicate OneId(items: seq<Item>, id: Id) {
    forall k :: 0 <= k < |items| ==> items[k].id == id
  }

  /**
   * A batch for one id leaves one head exactly when it brings nothing new, or when exactly one new
   * item is named by no other and the old head, if there is one, is named by a new item.
   */
  lemma HeadsAfter(c: Conf, log: seq<Item>, items: seq<Item>, id: Id, head: Option<Version>)
    requires WF(c, log) && OneHead(log) && IsHeadOf(log, id, head) && OneId(items, id)
    requires BatchFor(c, log, items) && forall k :: 0 <= k < |items| ==> Acceptable(log, c.name, items, items[k])
    ensures OneHead(Appended(log, items)) <==> GoesOn(News(log, items), head)
  {
    hide WF, BatchFor, Acceptable, OneHead, OneTip;
    assert items[..|items|] == items;
    AppendWF(c, log, items, |items|);
    var M := Stamp(News(log, items), LastI(log));
    forall k | 0 <= k < |M| ensures M[k].id == id {
      NewsAre(log, items, News(log, items)[k]);
    }
    Stamped(News(log, items), M);
    HeadsOnTop(c, log, M, id, head);
  }

  lemma Stamped(a: seq<Item>, b: seq<Item>)
    requires |a| == |b| && forall k :: 0 <= k < |a| ==> a[k].v == b[k].v && a[k].pa == b[k].pa
    ensures forall v :: (Has(a, v) <==> Has(b, v)) && (Childless(a, v) <==> Childless(b, v))
    ensures OneTip(a) <==> OneTip(b)
  {
    forall v ensures Has(a, v) <==> Has(b, v) {
    }
    forall v ensures Childless(a, v) <==> Childless(b, v) {
    }
    hide Has, Childless;
  }

  ghost predicate HeadOn(log: seq<Item>, id: Id, v: Version) {
    HasOf(log, id, v) && Childless(log, v)
  }

  /** The heads afterwards: new versions no new item names, and old heads no new item names. */
  ghost predicate StaysHead(log: seq<Item>, M: seq<Item>, id: Id, e: Id, v: Version) {
    (e == id && Has(M, v) && Childless(M, v)) || (HeadOn(log, e, v) && (e == id ==> Childless(M, v)))
  }

  lemma HeadsJoin(c: Conf, log: seq<Item>, M: seq<Item>, id: Id, e: Id, v: Version)
    requires WF(c, log + M) && OneId(M, id)
    ensures HeadOn(log + M, e, v) <==> StaysHead(log, M, id, e, v)
  {
    hide Fitting, Numbered;
    var L := log + M;
    assert forall k :: 0 <= k < |M| ==> L[|log| + k] == M[k];
    assert forall k :: 0 <= k < |log| ==> L[k] == log[k];
    assert Childless(L, v) <==> Childless(log, v) && Childless(M, v);
    if j :| 0 <= j < |log| && log[j].id == e && log[j].v == v {
      assert L[j].v == v;
      forall k | 0 <= k < |M| && v in M[k].pa ensures e == id {
        assert Earlier(L, |log| + k, v);
      }
    }
    if k :| 0 <= k < |M| && M[k].v == v {
      assert L[|log| + k].v == v;
      if j :| 0 <= j < |log| && v in log[j].pa {
        assert false;
      }
    }
  }

  lemma LastIsTip(c: Conf, log: seq<Item>, M: seq<Item>)
    requires WF(c, log + M) && M != []
    ensures Has(M, M[|M| - 1].v) && Childless(M, M[|M| - 1].v)
  {
    var L := log + M;
    var n := |L| - 1;
    NewestIsHead(c, L, n);
    assert forall k :: 0 <= k < |M| ==> L[|log| + k] == M[k];
  }

  lemma NotNew(c: Conf, log: seq<Item>, M: seq<Item>, id: Id, v: Version)
    requires WF(c, log + M) && HasOf(log, id, v)
    ensures !Has(M, v)
  {
    var L := log + M;
    var j :| 0 <= j < |log| && log[j].v == v;
    forall k | 0 <= k < |M| ensures M[k].v != v {
      assert L[j].v != L[|log| + k].v;
    }
  }

  /** Once a new item names the head, what is still a head of the id is new. */
  lemma OldHead(log: seq<Item>, M: seq<Item>, id: Id, head: Option<Version>, e: Id, v: Version)
    requires OneHead(log) && IsHeadOf(log, id, head) && StaysHead(log, M, id, e, v)
    requires head.Some? ==> !Childless(M, head.value)
    ensures if e == id then Has(M, v) && Childless(M, v) else HeadOn(log, e, v)
  {
    hide Childless;
    if e == id && HeadOn(log, e, v) {
      if head.None? {
        NoneOfId(log, id);
      }
    }
  }

  lemma HeadsOnTop(c: Conf, log: seq<Item>, M: seq<Item>, id: Id, head: Option<Version>)
    requires WF(c, log + M) && OneHead(log) && IsHeadOf(log, id, head) && OneId(M, id)
    ensures OneHead(log + M) <==> GoesOn(M, head)
  {
    hide WF, Childless, HasOf, Has, HasId;
    var L := log + M;
    forall e, v ensures HeadOn(L, e, v) <==> StaysHead(log, M, id, e, v) {
      HeadsJoin(c, log, M, id, e, v);
    }
    if M == [] {
      assert L == log;
    } else {
      var tip := M[|M| - 1].v;
      LastIsTip(c, log, M);
      assert HeadOn(L, id, tip);
      if head.Some? {
        NotNew(c, log, M, id, head.value);
        assert HeadOn(log, id, head.value) && (HeadOn(L, id, head.value) <==> Childless(M, head.value));
      } else {
        NoneOfId(log, id);
      }
      if OneHead(L) {
        forall v, w | Has(M, v) && Childless(M, v) && Has(M, w) && Childless(M, w) ensures v == w {
          assert HeadOn(L, id, v) && HeadOn(L, id, w);
        }
      }
      if OneTip(M) && (head.Some? ==> !Childless(M, head.value)) {
        forall e, v, w | HasOf(L, e, v) && Childless(L, v) && HasOf(L, e, w) && Childless(L, w) ensures v == w {
          assert HeadOn(L, e, v) && HeadOn(L, e, w);
          assert StaysHead(log, M, id, e, v) && StaysHead(log, M, id, e, w);
          OldHead(log, M, id, head, e, v);
          OldHead(log, M, id, head, e, w);
        }
      }
    }
  }
}
