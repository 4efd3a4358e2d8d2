/**
 * What a restart reads again. The queues are kept in memory only; a merge that is started again reads
 * each remote tree from behind the slot of that remote in the local tree.
 */
module Restart {
  import opened Items
  import opened Dag
  import opened Keys
  import opened Log
  import opened Index
  import opened Tree
  import opened Stream
  import opened Tail

  /** Where a remote tree is read from: behind the version in its slot, or from the start. */
  ghost function ReadFrom(rlog: seq<Item>, us: Slots, pe: Name): nat {
    if pe in us then Pos(rlog, us[pe]) + 1 else 0
  }

  /** Nothing is lost by a restart: what is not read again is stored. */
  ghost predicate NothingLost(rlog: seq<Item>, log: seq<Item>, us: Slots, pe: Name) {
    forall j :: 0 <= j < |rlog| && j < ReadFrom(rlog, us, pe) ==> Has(log, rlog[j].v)
  }

  /** The reader that is opened then is to pass on exactly what comes from there on. */
  lemma RestartReads(c: Conf, rlog: seq<Item>, us: Slots, pe: Name)
    requires WF(c, rlog) && (pe in us ==> Has(rlog, us[pe]))
    ensures var first := if pe in us then Some(us[pe]) else None;
      ReadFrom(rlog, us, pe) <= |rlog| && Goal(rlog, From(None, first, first.Some?)) == rlog[ReadFrom(rlog, us, pe)..]
  {
    hide WF, Pos, Wanted, Has;
    var first := if pe in us then Some(us[pe]) else None;
    var o := From(None, first, first.Some?);
    if pe in us {
      PosIs(rlog, us[pe]);
    }
    GoalIs(rlog, o);
    WantedIsSlice(rlog, o);
    assert StartOf(rlog, o) == ReadFrom(rlog, us, pe) && StopOf(rlog, o) == |rlog|;
  }

  /** Set up the reader of a remote tree: it goes on behind the slot of the remote in the local tree. */
  method SetupMerge(local: Tree, pe: Name) returns (reader: TailReader)
    requires local.Valid() && |pe| < 256
    ensures fresh(reader) && reader.emitted == [] && forall log :: reader.Following(log)
    ensures forall c, rlog :: WF(c, rlog) && (pe in local.us ==> Has(rlog, local.us[pe])) ==>
              ReadFrom(rlog, local.us, pe) <= |rlog| && Goal(rlog, reader.asked) == rlog[ReadFrom(rlog, local.us, pe)..]
  {
    hide Goal, ReadFrom, WF, Has;
    var v := local.LastByPerspective(pe);
    reader := new TailReader(None, v, v.Some?);
    forall c, rlog | WF(c, rlog) && (pe in local.us ==> Has(rlog, local.us[pe]))
      ensures ReadFrom(rlog, local.us, pe) <= |rlog| && Goal(rlog, reader.asked) == rlog[ReadFrom(rlog, local.us, pe)..]
    {
      RestartReads(c, rlog, local.us, pe);
    }
  }

  // ---- how a batch moves the slot ----

  /** The last item of a perspective. */
  ghost function LastOf(items: seq<Item>, pe: Name): Option<Version> {
    if items == [] then None
    else if items[|items| - 1].pe == Some(pe) then Some(items[|items| - 1].v)
    else LastOf(items[..|items| - 1], pe)
  }

  /** The items of the batch that are in the log already, in order. */
  ghost function Olds(log: seq<Item>, items: seq<Item>): seq<Item> {
    if items == [] then [] else
      Olds(log, items[..|items| - 1]) + if Has(log, items[|items| - 1].v) then [items[|items| - 1]] else []
  }

  /** Where an accepted batch leaves the slot: at its last new item, or else at the last one known before. */
  ghost function Mark(log: seq<Item>, items: seq<Item>, pe: Name): Option<Version> {
    var last := LastOf(News(log, items), pe);
    if last.Some? then last else LastOf(Olds(log, items), pe)
  }

  ghost function SlotsThen(name: Name, log: seq<Item>, us: Slots, items: seq<Item>): Slots {
    SlotsOf(name, Noted(log, name, us, items), News(log, items))
  }

  lemma {:induction false} SlotsAreLast(name: Name, us: Slots, items: seq<Item>, pe: Name)
    requires pe != name
    ensures var us' := SlotsOf(name, us, items);
      if LastOf(items, pe).Some? then pe in us' && us'[pe] == LastOf(items, pe).value
      else (pe in us' <==> pe in us) && (pe in us ==> us'[pe] == us[pe])
  {
    if items != [] {
      SlotsAreLast(name, us, items[..|items| - 1], pe);
    }
  }

  lemma OneMoreSlot(name: Name, us: Slots, items: seq<Item>, it: Item)
    ensures SlotsOf(name, us, items + [it]) == SlotsAfter(name, SlotsOf(name, us, items), it) && items + [] == items
  {
    assert (items + [it])[..|items|] == items;
  }

  lemma {:induction false} NotedIsOlds(name: Name, log: seq<Item>, us: Slots, items: seq<Item>)
    ensures Noted(log, name, us, items) == SlotsOf(name, us, Olds(log, items))
  {
    hide Has, SlotsAfter;
    if items != [] {
      var n := |items| - 1;
      NotedIsOlds(name, log, us, items[..n]);
      OneMoreSlot(name, us, Olds(log, items[..n]), items[n]);
    }
  }

  lemma SlotMoves(name: Name, log: seq<Item>, us: Slots, items: seq<Item>, pe: Name)
    requires pe != name
    ensures var us' := SlotsThen(name, log, us, items);
      if Mark(log, items, pe).Some? then pe in us' && us'[pe] == Mark(log, items, pe).value
      else (pe in us' <==> pe in us) && (pe in us ==> us'[pe] == us[pe])
  {
    NotedIsOlds(name, log, us, items);
    SlotsAreLast(name, us, Olds(log, items), pe);
    SlotsAreLast(name, Noted(log, name, us, items), News(log, items), pe);
  }

  // ---- runs of batches ----

  ghost function LogThen(log: seq<Item>, batches: seq<seq<Item>>): seq<Item> {
    if batches == [] then log else
      var n := |batches| - 1;
      Appended(LogThen(log, batches[..n]), batches[n])
  }

  ghost function SlotsThrough(name: Name, log: seq<Item>, us: Slots, batches: seq<seq<Item>>): Slots {
    if batches == [] then us else
      var n := |batches| - 1;
      SlotsThen(name, LogThen(log, batches[..n]), SlotsThrough(name, log, us, batches[..n]), batches[n])
  }

  /** The first `n` batches have been written. */
  ghost predicate SafeAt(name: Name, rlog: seq<Item>, log: seq<Item>, us: Slots, pe: Name, batches: seq<seq<Item>>, n: nat)
    requires n <= |batches|
  {
    NothingLost(rlog, LogThen(log, batches[..n]), SlotsThrough(name, log, us, batches[..n]), pe)
  }

  /** The batch, if it moves the slot, comes when every item before the new mark is stored or with it. */
  ghost predicate InTurn(rlog: seq<Item>, log: seq<Item>, pe: Name, batches: seq<seq<Item>>, n: nat)
    requires n < |batches|
  {
    var mark := Mark(LogThen(log, batches[..n]), batches[n], pe);
    mark.Some? ==>
      forall j :: 0 <= j < |rlog| && j <= Pos(rlog, mark.value) ==> Has(LogThen(log, batches[..n + 1]), rlog[j].v)
  }

  /**
   * A restart would lose nothing at any time exactly when it would not have at the start and the
   * batches come in turn.
   */
  lemma SafeThroughout(name: Name, rlog: seq<Item>, log: seq<Item>, us: Slots, pe: Name, batches: seq<seq<Item>>)
    requires pe != name
    ensures (forall n :: 0 <= n <= |batches| ==> SafeAt(name, rlog, log, us, pe, batches, n)) <==>
            NothingLost(rlog, log, us, pe) && forall n :: 0 <= n < |batches| ==> InTurn(rlog, log, pe, batches, n)
  {
    hide SafeAt, InTurn, NothingLost;
    SafeUpTo(name, rlog, log, us, pe, batches, |batches|);
  }

  lemma {:induction false} SafeUpTo(name: Name, rlog: seq<Item>, log: seq<Item>, us: Slots, pe: Name,
                                    batches: seq<seq<Item>>, m: nat)
    requires pe != name && m <= |batches|
    ensures (forall n :: 0 <= n <= m ==> SafeAt(name, rlog, log, us, pe, batches, n)) <==>
            NothingLost(rlog, log, us, pe) && forall n :: 0 <= n < m ==> InTurn(rlog, log, pe, batches, n)
  {
    hide SafeAt, InTurn, NothingLost;
    if m == 0 {
      SafeAtStart(name, rlog, log, us, pe, batches);
    } else {
      SafeUpTo(name, rlog, log, us, pe, batches, m - 1);
      if SafeAt(name, rlog, log, us, pe, batches, m - 1) {
        OneBatch(name, rlog, log, us, pe, batches, m - 1);
      }
    }
  }

  lemma SafeAtStart(name: Name, rlog: seq<Item>, log: seq<Item>, us: Slots, pe: Name, batches: seq<seq<Item>>)
    ensures SafeAt(name, rlog, log, us, pe, batches, 0) <==> NothingLost(rlog, log, us, pe)
  {
    assert batches[..0] == [];
  }

  lemma OneBatch(name: Name, rlog: seq<Item>, log: seq<Item>, us: Slots, pe: Name, batches: seq<seq<Item>>, n: nat)
    requires pe != name && n < |batches| && SafeAt(name, rlog, log, us, pe, batches, n)
    ensures SafeAt(name, rlog, log, us, pe, batches, n + 1) <==> InTurn(rlog, log, pe, batches, n)
  {
    hide Mark, SlotsThen, Appended;
    assert batches[..n + 1][..n] == batches[..n];
    var L, S := LogThen(log, batches[..n]), SlotsThrough(name, log, us, batches[..n]);
    SlotMoves(name, L, S, batches[n], pe);
    forall v | Has(L, v) ensures Has(Appended(L, batches[n]), v) {
      StillHas(L, batches[n], v);
    }
  }

  lemma StillHas(log: seq<Item>, items: seq<Item>, v: Version)
    requires Has(log, v)
    ensures Has(Appended(log, items), v)
  {
    var k :| 0 <= k < |log| && log[k].v == v;
    assert Appended(log, items)[k] == log[k];
  }

  // ---- single confirmations ----

  /** The remote's items at these positions, confirmed one by one. */
  ghost function OneByOne(rlog: seq<Item>, ps: seq<nat>): (bs: seq<seq<Item>>)
    requires forall i :: 0 <= i < |ps| ==> ps[i] < |rlog|
    ensures |bs| == |ps| && forall i :: 0 <= i < |ps| ==> bs[i] == [rlog[ps[i]]]
  {
    seq(|ps|, i requires 0 <= i < |ps| => [rlog[ps[i]]])
  }

  lemma {:induction false} HasConfirmed(rlog: seq<Item>, log: seq<Item>, ps: seq<nat>, bs: seq<seq<Item>>,
                                        n: nat, v: Version)
    requires n <= |ps| == |bs| && forall i :: 0 <= i < |ps| ==> ps[i] < |rlog| && bs[i] == [rlog[ps[i]]]
    ensures Has(LogThen(log, bs[..n]), v) <==> Has(log, v) || exists i :: 0 <= i < n && rlog[ps[i]].v == v
    decreases n
  {
    if n == 0 {
      assert bs[..0] == [];
    } else {
      HasConfirmed(rlog, log, ps, bs, n - 1, v);
      assert bs[..n][..n - 1] == bs[..n - 1];
      OneStored(LogThen(log, bs[..n - 1]), rlog[ps[n - 1]], v);
    }
  }

  lemma OneStored(log: seq<Item>, it: Item, v: Version)
    ensures Has(Appended(log, [it]), v) <==> Has(log, v) || it.v == v
  {
    NewsOne(log, it);
    var L := Appended(log, [it]);
    if Has(log, v) {
      StillHas(log, [it], v);
    }
    if it.v == v && !Has(log, v) {
      assert L[|log|].v == v;
    }
    if k :| 0 <= k < |L| && L[k].v == v {
      if k < |log| {
        assert log[k].v == v;
      }
    }
  }

  /** Position `j` is among the first confirmed ones, the one at `n` included. */
  ghost predicate Done(ps: seq<nat>, n: nat, j: nat)
    requires n < |ps|
  {
    exists i :: 0 <= i <= n && ps[i] == j
  }

  ghost predicate Covers(ps: seq<nat>, n: nat)
    requires n < |ps|
  {
    forall j: nat :: j <= ps[n] ==> Done(ps, n, j)
  }

  /**
   * If items of a remote are confirmed one by one, each for the first time and none of them stored
   * before, a restart loses nothing at any time exactly when they are confirmed in the order in which the
   * remote's tree holds them, from the first on and without a gap.
   */
  lemma ConfirmedInOrder(name: Name, rlog: seq<Item>, log: seq<Item>, us: Slots, pe: Name, ps: seq<nat>)
    requires pe != name && pe !in us && Distinct(rlog)
    requires forall k :: 0 <= k < |rlog| ==> rlog[k].pe == Some(pe) && !Has(log, rlog[k].v)
    requires (forall i :: 0 <= i < |ps| ==> ps[i] < |rlog|) && forall i, j :: 0 <= i < j < |ps| ==> ps[i] != ps[j]
    ensures var bs := OneByOne(rlog, ps);
      (forall n :: 0 <= n <= |bs| ==> SafeAt(name, rlog, log, us, pe, bs, n)) <==> forall i :: 0 <= i < |ps| ==> ps[i] == i
  {
    hide SafeAt, InTurn, OneByOne, Covers, NothingLost;
    var bs := OneByOne(rlog, ps);
    SafeThroughout(name, rlog, log, us, pe, bs);
    NoSlot(rlog, log, us, pe);
    forall n | 0 <= n < |ps| ensures InTurn(rlog, log, pe, bs, n) <==> Covers(ps, n) {
      TurnOfOne(rlog, log, pe, ps, bs, n);
    }
    if forall n :: 0 <= n < |ps| ==> InTurn(rlog, log, pe, bs, n) {
      forall n | 0 <= n < |ps| ensures Covers(ps, n) {
        assert InTurn(rlog, log, pe, bs, n);
      }
      InOrderFromTurns(ps, |ps|);
    }
    if forall i :: 0 <= i < |ps| ==> ps[i] == i {
      forall n | 0 <= n < |ps| ensures InTurn(rlog, log, pe, bs, n) {
        InOrderCovers(ps, n);
      }
    }
  }

  lemma NoSlot(rlog: seq<Item>, log: seq<Item>, us: Slots, pe: Name)
    requires pe !in us
    ensures NothingLost(rlog, log, us, pe)
  {
  }

  lemma InOrderCovers(ps: seq<nat>, n: nat)
    requires n < |ps| && forall i :: 0 <= i < |ps| ==> ps[i] == i
    ensures Covers(ps, n)
  {
    forall j: nat | j <= ps[n] ensures Done(ps, n, j) {
      assert ps[j] == j;
    }
  }

  lemma TurnOfOne(rlog: seq<Item>, log: seq<Item>, pe: Name, ps: seq<nat>, bs: seq<seq<Item>>, n: nat)
    requires n < |ps| == |bs| && Distinct(rlog)
    requires forall k :: 0 <= k < |rlog| ==> rlog[k].pe == Some(pe) && !Has(log, rlog[k].v)
    requires forall i :: 0 <= i < |ps| ==> ps[i] < |rlog| && bs[i] == [rlog[ps[i]]]
    ensures InTurn(rlog, log, pe, bs, n) <==> Covers(ps, n)
  {
    hide LogThen, Has, Pos, Mark;
    MarkOfOne(LogThen(log, bs[..n]), rlog[ps[n]], pe);
    PosHere(rlog, ps[n]);
    forall j: nat | j < |rlog| ensures Has(LogThen(log, bs[..n + 1]), rlog[j].v) <==> Done(ps, n, j) {
      HasConfirmed(rlog, log, ps, bs, n + 1, rlog[j].v);
      if i :| 0 <= i < n + 1 && rlog[ps[i]].v == rlog[j].v {
        assert ps[i] == j;
      }
    }
    forall j: nat | j <= ps[n] && InTurn(rlog, log, pe, bs, n) ensures Done(ps, n, j) {
      assert Has(LogThen(log, bs[..n + 1]), rlog[j].v);
    }
  }

  lemma MarkOfOne(log: seq<Item>, it: Item, pe: Name)
    requires it.pe == Some(pe)
    ensures Mark(log, [it], pe) == Some(it.v)
  {
    hide Has;
    NewsOne(log, it);
    assert [it][..0] == [];
    assert Olds(log, []) == [];
  }

  lemma PosHere(rlog: seq<Item>, k: nat)
    requires Distinct(rlog) && k < |rlog|
    ensures Pos(rlog, rlog[k].v) == k
  {
    hide Pos;
    assert Has(rlog, rlog[k].v);
    PosIs(rlog, rlog[k].v);
  }

  lemma {:induction false} InOrderFromTurns(ps: seq<nat>, n: nat)
    requires n <= |ps| && forall i, j :: 0 <= i < j < |ps| ==> ps[i] != ps[j]
    requires forall m :: 0 <= m < |ps| ==> Covers(ps, m)
    ensures forall i :: 0 <= i < n ==> ps[i] == i
    decreases n
  {
    if n > 0 {
      var m: nat := n - 1;
      InOrderFromTurns(ps, m);
      var x := if ps[m] < m then ps[m] else 0;
      assert x < m ==> ps[x] == x && ps[x] != ps[m];
      assert Covers(ps, m) && Done(ps, m, m);
    }
  }

  /** Noting an item that came back moves the slot too: what waits before it is not read again. */
  lemma RepeatSkips(name: Name, rlog: seq<Item>, log: seq<Item>, us: Slots, pe: Name, j: nat, k: nat)
    requires pe != name && Distinct(rlog) && j < k < |rlog| && rlog[k].pe == Some(pe)
    requires Has(log, rlog[k].v) && !Has(log, rlog[j].v)
    ensures Appended(log, [rlog[k]]) == log && !NothingLost(rlog, log, SlotsThen(name, log, us, [rlog[k]]), pe)
  {
    hide Has, Mark, SlotsThen;
    NewsOne(log, rlog[k]);
    MarkOfOne(log, rlog[k], pe);
    SlotMoves(name, log, us, [rlog[k]], pe);
    PosHere(rlog, k);
  }
}
