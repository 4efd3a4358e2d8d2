/** A tree: its counter, its view of the shared store, and the batches written to it. */
module Tree {
  import opened Items
  import opened Bytes
  import opened Dag
  import opened Keys
  import opened KeyBuffers
  import opened Log
  import opened Store
  import opened Index

  /** The outcome of examining one item against the tree and its batch. */
  datatype Verdict = Fault | Verdict(valid: bool, problems: set<Version>, isKnown: bool)

  /** The item's version, or one of its parents, is known under another id. */
  ghost predicate WrongId(log: seq<Item>, it: Item) {
    || (Has(log, it.v) && !HasOf(log, it.id, it.v))
    || (!Has(log, it.v) && exists p :: p in it.pa && Has(log, p) && !HasOf(log, it.id, p))
  }

  /** The slots once the items of a batch that are known already have been noted. */
  ghost function Noted(log: seq<Item>, name: Name, us: Slots, items: seq<Item>): Slots {
    if items == [] then us else
      var rest := Noted(log, name, us, items[..|items| - 1]);
      if Has(log, items[|items| - 1].v) then SlotsAfter(name, rest, items[|items| - 1]) else rest
  }

  /** The slots once new items have been written. */
  ghost function SlotsOf(name: Name, us: Slots, items: seq<Item>): Slots {
    if items == [] then us else SlotsAfter(name, SlotsOf(name, us, items[..|items| - 1]), items[|items| - 1])
  }

  /** A well-formed log whose numbers and slots fit the keys. */
  ghost predicate Sound(c: Conf, m: Db, log: seq<Item>, us: Slots) {
    WF(c, log) && Agrees(c, m, log, us)
  }

  lemma VersionEntry(c: Conf, m: Db, log: seq<Item>, us: Slots, v: Version)
    requires Sound(c, m, log, us) && |v.bytes| == c.vSize
    ensures Encode(c, VKey(v)) in m <==> Has(log, v)
    ensures Has(log, v) ==> exists j :: (0 <= j < |log| && log[j].v == v && Fits(c, DsKey(log[j].id, Num(log[j])))
                                         && m[Encode(c, VKey(v))] == Raw(Encode(c, DsKey(log[j].id, Num(log[j])))))
  {
    assert AgreesOn(c, m, log, us, VKey(v));
    if Has(log, v) {
      var j :| 0 <= j < |log| && EntryOf(c, log[j], VKey(v), m[Encode(c, VKey(v))]);
    }
  }

  lemma SlotEntry(c: Conf, m: Db, log: seq<Item>, us: Slots, pe: Name)
    requires Sound(c, m, log, us) && |pe| < 256
    ensures Fits(c, UsKey(pe)) && (Encode(c, UsKey(pe)) in m <==> pe in us)
    ensures pe in us ==> m[Encode(c, UsKey(pe))].Raw?
                         && Parse(m[Encode(c, UsKey(pe))].bytes) == Typed(c.name, VKey(us[pe]), c.vSize)
  {
    assert AgreesOn(c, m, log, us, UsKey(pe));
    if pe in us {
      ParseEncode(c, VKey(us[pe]));
    }
  }

  /** The id a stored version belongs to. */
  lemma VersionId(c: Conf, m: Db, log: seq<Item>, us: Slots, v: Version)
    requires Sound(c, m, log, us) && |v.bytes| == c.vSize && Has(log, v)
    ensures Encode(c, VKey(v)) in m && m[Encode(c, VKey(v))].Raw?
    ensures var r := Parse(m[Encode(c, VKey(v))].bytes);
      r.Typed? && r.key.DsKey? && forall id :: HasOf(log, id, v) <==> r.key.id == id
  {
    VersionEntry(c, m, log, us, v);
    var j :| 0 <= j < |log| && log[j].v == v && m[Encode(c, VKey(v))] == Raw(Encode(c, DsKey(log[j].id, Num(log[j]))))
               && Fits(c, DsKey(log[j].id, Num(log[j])));
    ParseEncode(c, DsKey(log[j].id, Num(log[j])));
    forall id ensures HasOf(log, id, v) <==> log[j].id == id {
    }
  }

  lemma SoundOk(c: Conf, m: Db, log: seq<Item>, us: Slots)
    requires Sound(c, m, log, us)
    ensures Ok(c) && WF(c, log)
  {
  }

  /** Whatever else the store holds is as it was. */
  ghost predicate OthersKept(c: Conf, m: Db, m': Db) {
    |c.name| <= 254 && Foreign(c, m, m')
  }

  /** So a tree with another name over the same store stays sound. */
  lemma OtherTree(c: Conf, c': Conf, m: Db, m': Db, log: seq<Item>, us: Slots)
    requires Sound(c', m, log, us) && Ok(c) && c.name != c'.name && OthersKept(c, m, m')
    ensures Sound(c', m', log, us)
  {
    hide WF, Agrees, Foreign;
    ForeignAgrees(c, c', m, m', log, us);
  }

  class Tree {
    const c: Conf
    const store: Store
    var i: nat
    ghost var log: seq<Item>
    ghost var us: Slots

    ghost predicate Valid()
      reads this, store
    {
      Sound(c, store.m, log, us) && (i == 0 || i == LastI(log))
    }

    /** Open a tree on a store that holds `log0` for it; a fresh store holds the empty log. */
    constructor (c: Conf, store: Store, ghost log0: seq<Item>, ghost us0: Slots)
      requires Sound(c, store.m, log0, us0)
      ensures Valid() && this.c == c && this.store == store && log == log0 && us == us0 && i == 0
    {
      this.c, this.store, this.i := c, store, 0;
      this.log, this.us := log0, us0;
    }

    /** The highest insertion number in the store. */
    method MaxI() returns (found: Option<nat>)
      requires Sound(c, store.m, log, us)
      ensures log == [] ==> found == None
      ensures log != [] ==> found == Some(LastI(log))
    {
      var r := GetIKeyRange(c, None, None);
      var ks := store.Scan(r, true, true);
      LastNumber(c, store.m, log, us, ks);
      found := None;
      if ks != [] {
        var r := ParseKey(ks[|ks| - 1]);
        if r.Typed? && r.key.IKey? {
          found := Some(r.key.i);
        }
      }
    }

    /** The version of the item inserted last. */
    method LastVersion() returns (v: Option<Version>)
      requires Valid()
      ensures log == [] ==> v == None
      ensures log != [] ==> v == Some(log[|log| - 1].v)
    {
      var r := GetIKeyRange(c, None, None);
      var ks := store.Scan(r, true, true);
      LastNumber(c, store.m, log, us, ks);
      v := None;
      if ks != [] {
        var r := ParseKey(store.m[ks[|ks| - 1]].bytes);
        if r.Typed? && r.key.HeadKey? {
          v := Some(r.key.v);
        }
      }
    }

    /** The version in the slot of a perspective, if there is one. */
    method LastByPerspective(pe: Name) returns (v: Option<Version>)
      requires Valid() && |pe| < 256
      ensures v == if pe in us then Some(us[pe]) else None
    {
      hide Parse, Encode;
      SoundOk(c, store.m, log, us);
      SlotEntry(c, store.m, log, us, pe);
      var usKey := ComposeUsKey(c, pe);
      if usKey !in store.m {
        return None;
      }
      var r := ParseKey(store.m[usKey].bytes);
      v := Some(r.key.v);
    }

    /** The next insertion number; the first one after opening is looked up in the store. */
    method NextI() returns (n: nat)
      requires Sound(c, store.m, log, us)
      modifies this`i
      ensures n == (if old(i) != 0 then old(i) else LastI(log)) + 1 && i == n
    {
      if i != 0 {
        i := i + 1;
        return i;
      }
      var found := MaxI();
      i := if found.Some? then found.value else 0;
      i := i + 1;
      n := i;
    }

    /** The heads of an id, as the versions in its head keys. */
    method HeadVersions(id: Id) returns (heads: set<Version>)
      requires Valid() && NullFree(id.bytes)
      ensures forall v :: v in heads <==> HasOf(log, id, v) && Childless(log, v)
      ensures heads == {} <==> !HasId(log, id)
    {
      hide Agrees, Parse, HasOf, HasId, Childless, IsScan, HeadKeyRange, NullFree, WF;
      SoundOk(c, store.m, log, us);
      var range := GetHeadKeyRange(c, Some(id));
      var ks := store.Scan(range, false, true);
      HeadScan(c, store.m, log, us, id, ks);
      heads := {};
      for n := 0 to |ks|
        invariant forall v :: v in heads <==> exists j :: 0 <= j < n && Parse(ks[j]).key == HeadKey(id, v)
      {
        var r := ParseKey(ks[n]);
        assert ks[n] in ks;
        heads := heads + {r.key.v};
        forall v ensures v in heads <==> exists j :: 0 <= j < n + 1 && Parse(ks[j]).key == HeadKey(id, v) {
          if v == r.key.v { assert Parse(ks[n]).key == HeadKey(id, v); }
        }
      }
      forall v ensures v in heads <==> exists b :: b in ks && Parse(b).key == HeadKey(id, v) {
      }
      if ks != [] {
        assert ks[0] in ks;
        assert Parse(ks[0]).key == HeadKey(id, Parse(ks[0]).key.v);
      }
    }

    /** The parents of an item that are not stored; a parent stored under another id is a fault. */
    method MissingParents(item: Item) returns (fault: bool, missing: set<Version>)
      requires Valid() && Fitting(c, item)
      ensures fault <==> exists p :: p in item.pa && Has(log, p) && !HasOf(log, item.id, p)
      ensures !fault ==> forall p :: p in missing <==> p in item.pa && !Has(log, p)
    {
      hide Sound, NullFree, Ok;
      SoundOk(c, store.m, log, us);
      missing := {};
      for n := 0 to |item.pa|
        invariant forall p :: p in missing <==> p in item.pa[..n] && !Has(log, p)
        invariant forall p :: p in item.pa[..n] && Has(log, p) ==> HasOf(log, item.id, p)
      {
        var p := item.pa[n];
        assert item.pa[..n + 1] == item.pa[..n] + [p];
        VersionEntry(c, store.m, log, us, p);
        var vKey := ComposeVKey(c, p);
        if vKey !in store.m {
          missing := missing + {p};
        } else {
          VersionId(c, store.m, log, us, p);
          var key := ParseKey(store.m[vKey].bytes);
          if key.key.id != item.id {
            return true, missing;
          }
        }
      }
      assert item.pa[..|item.pa|] == item.pa;
      fault := false;
    }

    /** Whether an item is new and connects to the tree or to its batch. */
    method ValidNewItem(item: Item, batch: seq<Item>) returns (r: Verdict)
      requires Valid() && Fitting(c, item)
      ensures r.Fault? <==> WrongId(log, item)
      ensures r.Verdict? ==> (r.isKnown <==> HasOf(log, item.id, item.v)) && (r.valid <==> Connects(log, batch, item))
      ensures r.Verdict? && item.pa == [] ==>
                forall v :: v in r.problems <==> HasOf(log, item.id, v) && Childless(log, v)
      ensures r.Verdict? && item.pa != [] && !r.isKnown ==>
                forall p :: p in r.problems <==> !r.valid && p in item.pa && !Has(log, p)
    {
      hide Sound, NullFree, Ok;
      SoundOk(c, store.m, log, us);
      var vKey := ComposeVKey(c, item.v);
      VersionEntry(c, store.m, log, us, item.v);
      if item.pa != [] {
        if vKey in store.m {
          VersionId(c, store.m, log, us, item.v);
          var key := ParseKey(store.m[vKey].bytes);
          return if key.key.id != item.id then Fault else Verdict(false, {}, true);
        }
        var fault, missing := MissingParents(item);
        if fault {
          return Fault;
        }
        if missing != {} && batch != [] && forall p :: p in missing ==> exists o :: o in batch && o.v == p {
          missing := {};
        }
        InBatch(log, item, batch);
        return Verdict(missing == {}, missing, false);
      }
      var heads := HeadVersions(item.id);
      if vKey in store.m {
        VersionId(c, store.m, log, us, item.v);
        var key := ParseKey(store.m[vKey].bytes);
        if key.key.id != item.id {
          return Fault;
        }
        return Verdict(heads == {}, heads, true);
      }
      return Verdict(heads == {}, heads, false);
    }

    /**
     * Examine every item of a batch: note the ones that are known already, keep the new ones,
     * and stop at the first that fits neither.
     */
    method FilterItems(items: seq<Item>) returns (ok: bool, fitems: seq<Item>)
      requires Valid() && forall k :: 0 <= k < |items| ==> Fitting(c, items[k])
      modifies store, this`us
      ensures Valid() && Foreign(c, old(store.m), store.m)
      ensures ok <==> forall k :: 0 <= k < |items| ==> Acceptable(log, c.name, items, items[k])
      ensures ok ==> fitems == News(log, items) && us == Noted(log, c.name, old(us), items)
      ensures !ok ==> exists k :: 0 <= k < |items| && us == Noted(log, c.name, old(us), items[..k])
    {
      hide Acceptable, Sound, WF, Foreign, Fitting, Connects, HasOf, WrongId, News, Noted, SlotsAfter, SlotOps;
      SoundOk(c, store.m, log, us);
      ForeignSame(c, store.m);
      fitems := [];
      Nothing(log, c.name, us);
      assert items[..0] == [];
      for k := 0 to |items|
        invariant Valid() && Foreign(c, old(store.m), store.m)
        invariant forall j :: 0 <= j < k ==> Acceptable(log, c.name, items, items[j])
        invariant fitems == News(log, items[..k]) && us == Noted(log, c.name, old(us), items[..k])
      {
        var item := items[k];
        OneMoreExamined(log, c.name, old(us), items, k);
        var r := ValidNewItem(item, items);
        Judge(log, c.name, items, item);
        if r.Fault? {
          return false, fitems;
        }
        if !r.valid && r.isKnown && item.pe.Some? && item.pe.value != c.name {
          NoteItem(c, store.m, log, us, item);
          ForeignTrans(c, old(store.m), store.m, Apply(store.m, SlotOps(c, item)));
          var ops := ComposeSlot(c, item);
          store.Batch(ops);
          us := SlotsAfter(c.name, us, item);
        } else if !r.valid {
          return false, fitems;
        } else {
          fitems := fitems + [item];
        }
      }
      assert items[..|items|] == items;
      ok := true;
    }

    /**
     * Write a batch: either every new item is stored, numbered in order, or none is. Items that are
     * known already and come from another perspective only move that perspective's slot.
     */
    method SaveAtomic(items: seq<Item>) returns (ok: bool)
      requires Valid() && BatchFor(c, log, items) && LastI(log) + |items| < Pow256(c.iSize)
      modifies store, this`i, this`log, this`us
      ensures Valid() && Foreign(c, old(store.m), store.m)
      ensures ok <==> forall k :: 0 <= k < |items| ==> Acceptable(old(log), c.name, items, items[k])
      ensures ok ==> log == Appended(old(log), items)
      ensures ok ==> us == SlotsOf(c.name, Noted(old(log), c.name, old(us), items), News(old(log), items))
      ensures !ok ==> log == old(log)
      ensures !ok ==> exists k :: 0 <= k < |items| && us == Noted(log, c.name, old(us), items[..k])
    {
      hide Sound, Acceptable, BatchFor, Part, Appended, Noted, SlotsOf, News, Foreign, Apply, ItemOps, Stamp;
      SoundOk(c, store.m, log, us);
      AllFitting(c, log, items);
      var fitems;
      ok, fitems := FilterItems(items);
      if !ok {
        return;
      }
      var tra: seq<Op> := [];
      ghost var us0 := us;
      BeginBatch(c, old(store.m), store.m, log, us, items);
      for k := 0 to |fitems|
        invariant Sound(c, store.m, log, us) && us == us0 && log == old(log)
        invariant Sound(c, Apply(store.m, tra), Part(log, fitems, k), SlotsOf(c.name, us, fitems[..k]))
        invariant Foreign(c, old(store.m), Apply(store.m, tra))
        invariant if k == 0 then i == old(i) else i == LastI(log) + k
      {
        var n := NextI();
        var item := fitems[k].(i := Some(n));
        NextItem(c, store.m, log, us, items, fitems, k, tra, item);
        var ops := ComposeOps(c, item);
        ForeignTrans(c, old(store.m), Apply(store.m, tra), Apply(store.m, tra + ops));
        tra := tra + ops;
      }
      assert fitems[..|fitems|] == fitems;
      LastOfPart(log, items, fitems);
      store.Batch(tra);
      log := Part(log, fitems, |fitems|);
      us := SlotsOf(c.name, us, fitems);
    }

    /**
     * Write a list of chunks: adjacent single items form one batch, an array of items is a batch of
     * its own, and the first batch that is refused ends the write.
     */
    method Writev(chunks: seq<Chunk>) returns (ok: bool)
      requires Valid() && LastI(log) + Count(Batches(chunks, [])) < Pow256(c.iSize)
      requires forall b :: b in Batches(chunks, []) ==> BatchOk(c, b)
      modifies store, this`i, this`log, this`us
      ensures Valid() && Foreign(c, old(store.m), store.m)
      ensures ok ==> log == AppendedAll(old(log), Batches(chunks, []))
      ensures !ok ==> exists k :: (0 <= k < |Batches(chunks, [])| && log == AppendedAll(old(log), Batches(chunks, [])[..k])
                                   && !AllAcceptable(log, c.name, Batches(chunks, [])[k]))
    {
      hide Sound, BatchOk, AppendedAll, Foreign, AllAcceptable;
      SoundOk(c, store.m, log, us);
      ForeignSame(c, store.m);
      var group: seq<Item> := [];
      ghost var m0, log0, all, done := store.m, log, Batches(chunks, []), 0;
      NoneDone(log, all);
      for n := 0 to |chunks|
        invariant Written(m0, log0, all, done) && all[done..] == Batches(chunks[n..], group)
      {
        assert chunks[n..][0] == chunks[n] && chunks[n..][1..] == chunks[n + 1..];
        match chunks[n]
        case Single(item) =>
          group := group + [item];
        case Many(items) =>
          if group != [] {
            ok := SaveNext(group, m0, log0, all, done);
            if !ok { return; }
            done := done + 1;
            group := [];
          }
          ok := SaveNext(items, m0, log0, all, done);
          if !ok { return; }
          done := done + 1;
      }
      assert chunks[|chunks|..] == [];
      if group != [] {
        ok := SaveNext(group, m0, log0, all, done);
        if !ok { return; }
        done := done + 1;
      }
      assert all[..done] == all;
      ok := true;
    }

    /** The first `done` batches have been written. */
    ghost predicate Written(m0: Db, log0: seq<Item>, all: seq<seq<Item>>, done: nat)
      reads this, store
    {
      && Valid() && |c.name| <= 254 && Foreign(c, m0, store.m) && done <= |all| && log == AppendedAll(log0, all[..done])
      && LastI(log) + Count(all[done..]) < Pow256(c.iSize)
      && forall b :: b in all ==> BatchOk(c, b)
    }

    /** Write the next batch. */
    method SaveNext(items: seq<Item>, ghost m0: Db, ghost log0: seq<Item>, ghost all: seq<seq<Item>>, ghost done: nat)
      returns (ok: bool)
      requires Written(m0, log0, all, done) && done < |all| && all[done..][0] == items
      modifies store, this`i, this`log, this`us
      ensures |c.name| <= 254 && Valid() && Foreign(c, m0, store.m)
      ensures ok ==> Written(m0, log0, all, done + 1) && all[done + 1..] == all[done..][1..]
      ensures !ok ==> log == AppendedAll(log0, all[..done]) && !AllAcceptable(log, c.name, all[done])
    {
      hide Sound, BatchOk, AppendedAll, Appended, Foreign;
      NextBatch(log0, all, done);
      BatchOkFor(c, log, items);
      ok := SaveAtomic(items);
      ForeignTrans(c, m0, old(store.m), store.m);
      AppendedLast(old(log), items);
    }
  }

  lemma Nothing(log: seq<Item>, name: Name, us: Slots)
    ensures News(log, []) == [] && Noted(log, name, us, []) == us
  {
  }

  lemma OneMoreExamined(log: seq<Item>, name: Name, us: Slots, items: seq<Item>, k: nat)
    requires k < |items|
    ensures News(log, items[..k + 1]) == News(log, items[..k]) + if Has(log, items[k].v) then [] else [items[k]]
    ensures Noted(log, name, us, items[..k + 1]) ==
            if Has(log, items[k].v) then SlotsAfter(name, Noted(log, name, us, items[..k]), items[k])
            else Noted(log, name, us, items[..k])
  {
    hide SlotsAfter, Has;
    assert items[..k + 1][..k] == items[..k];
  }

  lemma AllFitting(c: Conf, log: seq<Item>, items: seq<Item>)
    requires BatchFor(c, log, items)
    ensures forall k :: 0 <= k < |items| ==> Fitting(c, items[k])
  {
  }

  lemma NoneDone(log: seq<Item>, all: seq<seq<Item>>)
    ensures log == AppendedAll(log, all[..0])
  {
  }

  lemma AppendedLast(log: seq<Item>, items: seq<Item>)
    ensures LastI(Appended(log, items)) == LastI(log) + |News(log, items)| <= LastI(log) + |items|
  {
    if items != [] { NewsAre(log, items, items[0]); }
  }

  datatype Chunk = Single(item: Item) | Many(items: seq<Item>)

  /** The batches a list of chunks falls into, given the single items collected so far. */
  ghost function Batches(chunks: seq<Chunk>, group: seq<Item>): seq<seq<Item>> {
    if chunks == [] then (if group == [] then [] else [group])
    else match chunks[0]
      case Single(item) => Batches(chunks[1..], group + [item])
      case Many(items) => (if group == [] then [] else [group]) + [items] + Batches(chunks[1..], [])
  }

  ghost function Count(batches: seq<seq<Item>>): nat {
    if batches == [] then 0 else |batches[0]| + Count(batches[1..])
  }

  ghost function AppendedAll(log: seq<Item>, batches: seq<seq<Item>>): seq<Item> {
    if batches == [] then log else Appended(AppendedAll(log, batches[..|batches| - 1]), batches[|batches| - 1])
  }

  ghost predicate AllAcceptable(log: seq<Item>, name: Name, items: seq<Item>) {
    forall k :: 0 <= k < |items| ==> Acceptable(log, name, items, items[k])
  }

  lemma NextBatch(log: seq<Item>, all: seq<seq<Item>>, done: nat)
    requires done < |all|
    ensures AppendedAll(log, all[..done + 1]) == Appended(AppendedAll(log, all[..done]), all[done])
    ensures Count(all[done..]) == |all[done]| + Count(all[done + 1..])
    ensures all[done..][0] == all[done] && all[done..][1..] == all[done + 1..] && all[done] in all
  {
    assert all[..done + 1][..done] == all[..done];
    assert all[done..][1..] == all[done + 1..];
  }

  /** What the verdict on one item means for the batch. */
  lemma Judge(log: seq<Item>, name: Name, items: seq<Item>, item: Item)
    ensures Acceptable(log, name, items, item) <==>
              Connects(log, items, item) || (HasOf(log, item.id, item.v) && item.pe.Some? && item.pe.value != name)
    ensures WrongId(log, item) ==> !Acceptable(log, name, items, item)
    ensures Connects(log, items, item) ==> !Has(log, item.v)
    ensures HasOf(log, item.id, item.v) ==> Has(log, item.v)
  {
  }

  lemma NoteItem(c: Conf, m: Db, log: seq<Item>, us: Slots, item: Item)
    requires Sound(c, m, log, us) && Fitting(c, item)
    ensures Ok(c) && |item.v.bytes| == c.vSize && (item.pe.Some? ==> |item.pe.value| < 256)
    ensures Sound(c, Apply(m, SlotOps(c, item)), log, SlotsAfter(c.name, us, item))
    ensures Foreign(c, m, Apply(m, SlotOps(c, item)))
  {
    SetSlot(c, m, log, us, item);
  }

  /** The operations of one new item. */
  ghost function ItemOps(c: Conf, it: Item): seq<Op>
    requires Ok(c) && TextId(it.id.bytes) && |it.v.bytes| == c.vSize && Num(it) < Pow256(c.iSize)
    requires (forall p :: p in it.pa ==> |p.bytes| == c.vSize) && (it.pe.Some? ==> |it.pe.value| < 256)
  {
    var headKey, dsKey := Encode(c, HeadKey(it.id, it.v)), Encode(c, DsKey(it.id, Num(it)));
    DelHeads(c, it.id, it.pa)
    + [Put(headKey, Raw(HeadVal(c, it.c, it.d, Num(it)))),
       Put(Encode(c, IKey(Num(it))), Raw(headKey)),
       Put(Encode(c, VKey(it.v)), Raw(dsKey))]
    + SlotOps(c, it)
    + [Put(dsKey, Doc(it))]
  }

  /** Compose them: take the parents off the heads, then file the item. */
  method ComposeOps(c: Conf, it: Item) returns (ops: seq<Op>)
    requires Ok(c) && TextId(it.id.bytes) && |it.v.bytes| == c.vSize && Num(it) < Pow256(c.iSize)
    requires (forall p :: p in it.pa ==> |p.bytes| == c.vSize) && (it.pe.Some? ==> |it.pe.value| < 256)
    ensures ops == ItemOps(c, it)
  {
    hide Encode, TextId, Pow256;
    TextIsNullFree(it.id.bytes);
    var dsKey := ComposeDsKey(c, it.id, Num(it));
    var headKey := ComposeHeadKey(c, it.id, it.v);
    var headVal := ComposeHeadVal(c, it.c, it.d, Num(it));
    var iKey := ComposeIKey(c, Num(it));
    var vKey := ComposeVKey(c, it.v);
    ops := [];
    for n := 0 to |it.pa|
      invariant ops == DelHeads(c, it.id, it.pa[..n])
    {
      assert it.pa[..n + 1][..n] == it.pa[..n];
      var parent := ComposeHeadKey(c, it.id, it.pa[n]);
      ops := ops + [Del(parent)];
    }
    assert it.pa[..|it.pa|] == it.pa;
    var slot := ComposeSlot(c, it);
    ops := ops + [Put(headKey, Raw(headVal)), Put(iKey, Raw(headKey)), Put(vKey, Raw(dsKey))] + slot + [Put(dsKey, Doc(it))];
  }

  method ComposeSlot(c: Conf, it: Item) returns (ops: seq<Op>)
    requires Ok(c) && |it.v.bytes| == c.vSize && (it.pe.Some? ==> |it.pe.value| < 256)
    ensures ops == SlotOps(c, it)
  {
    ops := [];
    if it.pe.Some? && it.pe.value != c.name {
      var usKey := ComposeUsKey(c, it.pe.value);
      var vKey := ComposeVKey(c, it.v);
      ops := [Put(usKey, Raw(vKey))];
    }
  }

  lemma TextIsNullFree(id: Bytes)
    requires TextId(id)
    ensures NullFree(id)
  {
  }

  /** The log with the first `k` of the new items. */
  ghost function Part(log: seq<Item>, fitems: seq<Item>, k: nat): seq<Item>
    requires k <= |fitems|
  {
    log + Stamp(fitems[..k], LastI(log))
  }

  lemma InBatch(log: seq<Item>, item: Item, batch: seq<Item>)
    requires !Has(log, item.v) && item.pa != []
    requires forall p :: p in item.pa && Has(log, p) ==> HasOf(log, item.id, p)
    ensures Connects(log, batch, item) <==>
            forall p :: p in item.pa && !Has(log, p) ==> exists o :: o in batch && o.v == p
  {
    forall p ensures Has(batch, p) <==> exists o :: o in batch && o.v == p {
      if j :| 0 <= j < |batch| && batch[j].v == p { assert batch[j] in batch; }
    }
    forall p | HasOf(log, item.id, p) ensures Has(log, p) {
    }
  }

  /** The heads of an id are the childless versions, and an id with items has one. */
  lemma HeadScan(c: Conf, m: Db, log: seq<Item>, us: Slots, id: Id, ks: seq<Bytes>)
    requires Sound(c, m, log, us) && NullFree(id.bytes)
    requires IsScan(m, HeadKeyRange(c, Some(id)), false, true, ks)
    ensures forall b :: b in ks ==> Parse(b).Typed? && Parse(b).key.HeadKey?
    ensures forall v :: (exists b :: b in ks && Parse(b).key == HeadKey(id, v)) <==> HasOf(log, id, v) && Childless(log, v)
    ensures forall b :: b in ks ==> Parse(b).key.id == id
    ensures ks == [] <==> !HasId(log, id)
  {
    forall b | b in ks
      ensures exists v :: Parse(b) == Typed(c.name, HeadKey(id, v), c.vSize) && HasOf(log, id, v) && Childless(log, v)
    {
      InHeadScan(c, m, log, us, id, b);
    }
    forall v | HasOf(log, id, v) && Childless(log, v) ensures exists b :: b in ks && Parse(b).key == HeadKey(id, v) {
      HeadIsScanned(c, m, log, us, id, v);
      assert Encode(c, HeadKey(id, v)) in ks;
    }
    if HasId(log, id) {
      assert log[..|log|] == log;
      var k := IdHasHead(c, log, |log|, id);
      assert HasOf(log, id, log[k].v);
    }
    if ks != [] {
      assert ks[0] in ks;
    }
  }

  lemma HeadFits(c: Conf, log: seq<Item>, us: Slots, id: Id, v: Version)
    requires Fitted(c, log, us) && HasOf(log, id, v)
    ensures Fits(c, HeadKey(id, v))
  {
  }

  lemma HeadIsScanned(c: Conf, m: Db, log: seq<Item>, us: Slots, id: Id, v: Version)
    requires Sound(c, m, log, us) && NullFree(id.bytes) && HasOf(log, id, v) && Childless(log, v)
    ensures Fits(c, HeadKey(id, v)) && Encode(c, HeadKey(id, v)) in m
    ensures Within(HeadKeyRange(c, Some(id)), false, true, Encode(c, HeadKey(id, v)))
    ensures Parse(Encode(c, HeadKey(id, v))) == Typed(c.name, HeadKey(id, v), c.vSize)
  {
    hide Encode, Parse, HeadKeyRange, WF, HasOf, Childless, Holds, Owned, NullFree, InRange;
    HeadFits(c, log, us, id, v);
    assert AgreesOn(c, m, log, us, HeadKey(id, v));
    HeadKeyRangeExact(c, Some(id), c, HeadKey(id, v));
    ParseEncode(c, HeadKey(id, v));
  }

  lemma InHeadScan(c: Conf, m: Db, log: seq<Item>, us: Slots, id: Id, b: Bytes)
    requires Sound(c, m, log, us) && NullFree(id.bytes)
    requires b in m && Within(HeadKeyRange(c, Some(id)), false, true, b)
    ensures exists v :: Parse(b) == Typed(c.name, HeadKey(id, v), c.vSize) && HasOf(log, id, v) && Childless(log, v)
  {
    var p := Prefix(c.name, 3);
    PrefixLe(p, p + (id.bytes + [0] + []));
    LeTrans(p, p + (id.bytes + [0] + []), b);
    Between(p, id.bytes + [0] + [255], b);
    assert Owned(c, b);
    var k :| Fits(c, k) && b == Encode(c, k);
    assert AgreesOn(c, m, log, us, k);
    HeadKeyRangeExact(c, Some(id), c, k);
    ParseEncode(c, k);
  }

  /** The key of a head. */
  ghost predicate IsHeadKey(c: Conf, log: seq<Item>, b: Bytes)
    requires Ok(c)
  {
    exists id, v :: Fits(c, HeadKey(id, v)) && b == Encode(c, HeadKey(id, v)) && HasOf(log, id, v) && Childless(log, v)
  }

  /** Of all the store holds, for whatever tree, the range of all heads selects exactly the heads of its tree. */
  lemma AllHeadsExact(c: Conf, m: Db, log: seq<Item>, us: Slots, b: Bytes)
    requires Sound(c, m, log, us) && b in m
    ensures Within(HeadKeyRange(c, None), false, true, b) <==> IsHeadKey(c, log, b)
  {
    hide Encode, WF, HasOf, Childless, TextId;
    var p := Prefix(c.name, 3);
    if Within(HeadKeyRange(c, None), false, true, b) {
      PrefixLe(p, p + []);
      LeTrans(p, p + [], b);
      Between(p, [255], b);
      assert Owned(c, b);
      var k :| Fits(c, k) && b == Encode(c, k);
      assert AgreesOn(c, m, log, us, k);
      HeadKeyRangeExact(c, None, c, k);
      assert IsHeadKey(c, log, b);
    }
    if id, v :| Fits(c, HeadKey(id, v)) && b == Encode(c, HeadKey(id, v)) && HasOf(log, id, v) && Childless(log, v) {
      HeadKeyRangeExact(c, None, c, HeadKey(id, v));
    }
  }

  /** The last key of the insertion-order scan is the newest item's. */
  lemma LastNumber(c: Conf, m: Db, log: seq<Item>, us: Slots, ks: seq<Bytes>)
    requires Sound(c, m, log, us) && IsScan(m, IKeyRange(c, None, None), true, true, ks)
    ensures log == [] <==> ks == []
    ensures log != [] ==>
      var k := ks[|ks| - 1];
      var it := log[|log| - 1];
      && Parse(k) == Typed(c.name, IKey(LastI(log)), c.iSize)
      && k in m && m[k].Raw? && Parse(m[k].bytes) == Typed(c.name, HeadKey(it.id, it.v), c.vSize)
  {
    hide Encode, Parse, IKeyRange;
    forall b | b in ks ensures exists j :: 0 <= j < |log| && b == Encode(c, IKey(Num(log[j]))) {
      InScan(c, m, log, us, b);
    }
    if ks != [] {
      assert ks[0] in ks;
    }
    if log != [] {
      var it := log[|log| - 1];
      var k := Encode(c, IKey(Num(it)));
      NewestEntry(c, m, log, us);
      assert k in ks;
      var p :| 0 <= p < |ks| && ks[p] == k;
      var last := ks[|ks| - 1];
      assert last in ks;
      var j :| 0 <= j < |log| && last == Encode(c, IKey(Num(log[j])));
      IKeyOrder(c, Num(it), Num(log[j]));
      assert p == |ks| - 1;
    }
  }

  lemma NewestEntry(c: Conf, m: Db, log: seq<Item>, us: Slots)
    requires Sound(c, m, log, us) && log != []
    ensures
      var it := log[|log| - 1];
      && Fits(c, IKey(Num(it))) && Encode(c, IKey(Num(it))) in m
      && Within(IKeyRange(c, None, None), true, true, Encode(c, IKey(Num(it))))
      && Parse(Encode(c, IKey(Num(it)))) == Typed(c.name, IKey(Num(it)), c.iSize)
      && m[Encode(c, IKey(Num(it)))].Raw?
      && Parse(m[Encode(c, IKey(Num(it)))].bytes) == Typed(c.name, HeadKey(it.id, it.v), c.vSize)
  {
    hide Encode, Parse, IKeyRange;
    var n := |log| - 1;
    var k := IKey(Num(log[n]));
    assert AgreesOn(c, m, log, us, k);
    IKeyRangeExact(c, None, None, c, k);
    IKeyRangeBounds(c, None, None, Num(log[n]));
    ParseEncode(c, k);
    var j :| 0 <= j < |log| && EntryOf(c, log[j], k, m[Encode(c, k)]);
    assert j == n;
    ParseEncode(c, HeadKey(log[n].id, log[n].v));
  }

  lemma InScan(c: Conf, m: Db, log: seq<Item>, us: Slots, b: Bytes)
    requires Sound(c, m, log, us) && b in m && Within(IKeyRange(c, None, None), true, true, b)
    ensures exists j :: 0 <= j < |log| && b == Encode(c, IKey(Num(log[j])))
  {
    PrefixLe(Prefix(c.name, 2), Prefix(c.name, 2) + []);
    assert Prefix(c.name, 2) + [] == Prefix(c.name, 2);
    Between(Prefix(c.name, 2), [255], b);
    assert Owned(c, b);
    var k :| Fits(c, k) && b == Encode(c, k);
    assert AgreesOn(c, m, log, us, k);
    IKeyRangeExact(c, None, None, c, k);
  }

  // ---- the steps of a batch ----

  lemma ForeignTrans(c: Conf, a: Db, b: Db, d: Db)
    requires |c.name| <= 254 && Foreign(c, a, b) && Foreign(c, b, d)
    ensures Foreign(c, a, d)
  {
  }

  lemma ForeignSame(c: Conf, a: Db)
    requires |c.name| <= 254
    ensures Foreign(c, a, a)
  {
  }

  lemma BeginBatch(c: Conf, m0: Db, m: Db, log: seq<Item>, us: Slots, items: seq<Item>)
    requires Sound(c, m, log, us) && |c.name| <= 254 && Foreign(c, m0, m)
    ensures Foreign(c, m0, Apply(m, []))
    ensures Sound(c, Apply(m, []), Part(log, News(log, items), 0), SlotsOf(c.name, us, News(log, items)[..0]))
  {
    assert Part(log, News(log, items), 0) == log;
  }

  lemma LastOfPart(log: seq<Item>, items: seq<Item>, fitems: seq<Item>)
    requires fitems == News(log, items)
    ensures LastI(Part(log, fitems, |fitems|)) == LastI(log) + |fitems|
    ensures Part(log, fitems, |fitems|) == Appended(log, items)
  {
    assert fitems[..|fitems|] == fitems;
  }

  lemma WFPrefix(c: Conf, log: seq<Item>, n: nat)
    requires WF(c, log) && n <= |log|
    ensures WF(c, log[..n])
  {
    var L := log[..n];
    forall k, p | 0 <= k < |L| && p in L[k].pa ensures Earlier(L, k, p) {
      assert Earlier(log, k, p);
      var j :| 0 <= j < k && log[j].v == p && log[j].id == log[k].id;
      assert L[j] == log[j];
    }
  }

  lemma PartIsPrefix(c: Conf, log: seq<Item>, items: seq<Item>, k: nat)
    requires WF(c, log) && BatchFor(c, log, items)
    requires forall j :: 0 <= j < |items| ==> Acceptable(log, c.name, items, items[j])
    requires k < |News(log, items)|
    ensures var N := News(log, items);
      Part(log, N, k + 1) == Part(log, N, k) + [N[k].(i := Some(LastI(log) + k + 1))]
      && WF(c, Part(log, N, k + 1)) && k < |items|
  {
    hide WF, Acceptable, BatchFor, News;
    var N := News(log, items);
    assert items[..|items|] == items;
    AppendWF(c, log, items, |items|);
    NewsAre(log, items, N[0]);
    var L := Appended(log, items);
    WFPrefix(c, L, |log| + k + 1);
    assert L[..|log| + k + 1] == Part(log, N, k + 1);
    assert Part(log, N, k + 1) == Part(log, N, k) + [N[k].(i := Some(LastI(log) + k + 1))];
  }

  /** One more new item goes into the batch. */
  lemma NextItem(c: Conf, m: Db, log: seq<Item>, us: Slots, items: seq<Item>, fitems: seq<Item>, k: nat, tra: seq<Op>, item: Item)
    requires WF(c, log) && BatchFor(c, log, items) && fitems == News(log, items) && k < |fitems|
    requires forall j :: 0 <= j < |items| ==> Acceptable(log, c.name, items, items[j])
    requires LastI(log) + |items| < Pow256(c.iSize)
    requires Sound(c, Apply(m, tra), Part(log, fitems, k), SlotsOf(c.name, us, fitems[..k]))
    requires item == fitems[k].(i := Some(LastI(log) + k + 1))
    ensures Stores(c, item)
    ensures Sound(c, Apply(m, tra + ItemOps(c, item)), Part(log, fitems, k + 1), SlotsOf(c.name, us, fitems[..k + 1]))
    ensures Foreign(c, Apply(m, tra), Apply(m, tra + ItemOps(c, item)))
  {
    hide Sound, BatchFor, Acceptable, Apply, ItemOps, WF, Part, News, Stamp, Encode, Foreign;
    PartIsPrefix(c, log, items, k);
    LastFits(c, Part(log, fitems, k), item);
    SoundOk(c, Apply(m, tra), Part(log, fitems, k), SlotsOf(c.name, us, fitems[..k]));
    ApplyConcat(m, tra, ItemOps(c, item));
    assert fitems[..k + 1] == fitems[..k] + [fitems[k]];
    StoreItem(c, Apply(m, tra), Part(log, fitems, k), SlotsOf(c.name, us, fitems[..k]), item);
  }

  lemma LastFits(c: Conf, log: seq<Item>, item: Item)
    requires WF(c, log + [item])
    ensures Fitting(c, item)
  {
    assert (log + [item])[|log|] == item;
  }

  /** The operations of one item file it under its keys and move its perspective's slot. */
  lemma StoreItem(c: Conf, m: Db, log: seq<Item>, us: Slots, item: Item)
    requires Sound(c, m, log, us) && WF(c, log + [item]) && Stores(c, item)
    ensures var m' := Apply(m, ItemOps(c, item));
      Sound(c, m', log + [item], SlotsAfter(c.name, us, item)) && Foreign(c, m, m')
  {
    hide Agrees, Foreign, WF;
    FileItem(c, m, log, us, item);
    var m1 := Filed(c, Apply(m, DelHeads(c, item.id, item.pa)), item);
    SetSlot(c, m1, log + [item], us, item);
    OpsAsFiled(c, m, item);
    ForeignTrans(c, m, m1, Apply(m1, SlotOps(c, item)));
  }

  /** The order of the last two writes does not matter: they go to different keys. */
  lemma OpsAsFiled(c: Conf, m: Db, it: Item)
    requires Stores(c, it)
    ensures Apply(m, ItemOps(c, it)) == Apply(Filed(c, Apply(m, DelHeads(c, it.id, it.pa)), it), SlotOps(c, it))
  {
    hide Encode, Apply, DelHeads, HeadVal, Pow256;
    var headKey, dsKey := Encode(c, HeadKey(it.id, it.v)), Encode(c, DsKey(it.id, Num(it)));
    var a := DelHeads(c, it.id, it.pa);
    var b := [Put(headKey, Raw(HeadVal(c, it.c, it.d, Num(it)))),
              Put(Encode(c, IKey(Num(it))), Raw(headKey)),
              Put(Encode(c, VKey(it.v)), Raw(dsKey))];
    var s := SlotOps(c, it);
    var m1 := Apply(m, a);
    ApplyConcat(m, a + b + s, [Put(dsKey, Doc(it))]);
    ApplyConcat(m, a + b, s);
    ApplyConcat(m, a, b);
    ApplyThree(m1, b[0], b[1], b[2]);
    var m2 := Apply(m1, b);
    ApplySingle(Apply(m2, s), Put(dsKey, Doc(it)));
    ApplyNone(m2);
    ApplyNone(m2[dsKey := Doc(it)]);
    if s != [] {
      Tell(c, UsKey(it.pe.value), DsKey(it.id, Num(it)));
      ApplySingle(m2, s[0]);
      ApplySingle(m2[dsKey := Doc(it)], s[0]);
    }
  }

  lemma ApplyNone(m: Db)
    ensures Apply(m, []) == m
  {
  }

  lemma ApplySingle(m: Db, op: Op)
    ensures Apply(m, [op]) == ApplyOne(m, op)
  {
    assert [op][..0] == [];
  }

  lemma ApplyThree(m: Db, x: Op, y: Op, z: Op)
    ensures Apply(m, [x, y, z]) == ApplyOne(ApplyOne(ApplyOne(m, x), y), z)
  {
    ApplyConcat(m, [x, y], [z]);
    ApplyConcat(m, [x], [y]);
    ApplySingle(m, x);
    ApplySingle(ApplyOne(m, x), y);
    ApplySingle(ApplyOne(ApplyOne(m, x), y), z);
    assert [x] + [y] == [x, y] && [x, y] + [z] == [x, y, z];
  }

  // ---- what the indexes say ----

  /** An empty store is in step with the empty log. */
  lemma EmptyTree(c: Conf)
    requires Ok(c)
    ensures Sound(c, map[], [], map[])
  {
    assert forall k :: AgreesOn(c, map[], [], map[], k);
  }

  /** From a version, or from a number, the indexes lead to the item and back. */
  lemma IndexesLeadToItem(c: Conf, m: Db, log: seq<Item>, us: Slots, n: nat)
    requires Sound(c, m, log, us) && n < |log|
    ensures
      var it := log[n];
      var ds, head := DsKey(it.id, Num(it)), HeadKey(it.id, it.v);
      && Fits(c, ds) && Fits(c, head) && Fits(c, VKey(it.v)) && Fits(c, IKey(Num(it)))
      && Encode(c, VKey(it.v)) in m && m[Encode(c, VKey(it.v))] == Raw(Encode(c, ds))
      && Encode(c, ds) in m && m[Encode(c, ds)] == Doc(it)
      && Encode(c, IKey(Num(it))) in m && m[Encode(c, IKey(Num(it)))] == Raw(Encode(c, head))
      && Parse(Encode(c, ds)) == Typed(c.name, ds, c.iSize) && Parse(Encode(c, head)) == Typed(c.name, head, c.vSize)
  {
    hide Encode, Parse;
    var it := log[n];
    var ds, head := DsKey(it.id, Num(it)), HeadKey(it.id, it.v);
    assert AgreesOn(c, m, log, us, VKey(it.v));
    assert AgreesOn(c, m, log, us, ds);
    assert AgreesOn(c, m, log, us, IKey(Num(it)));
    ParseEncode(c, ds);
    ParseEncode(c, head);
  }

  /** The head index of an id lists exactly the versions without children, each with its number and flags. */
  lemma HeadIndexExact(c: Conf, m: Db, log: seq<Item>, us: Slots, id: Id, v: Version)
    requires Sound(c, m, log, us) && Fits(c, HeadKey(id, v))
    ensures Encode(c, HeadKey(id, v)) in m <==> HasOf(log, id, v) && Childless(log, v)
    ensures forall n :: 0 <= n < |log| && log[n].v == v && Encode(c, HeadKey(id, v)) in m ==>
              m[Encode(c, HeadKey(id, v))].Raw?
              && ParseHeadVal(m[Encode(c, HeadKey(id, v))].bytes) == Some((log[n].c, log[n].d, Num(log[n])))
  {
    hide Encode, ParseHeadVal, HeadVal;
    assert AgreesOn(c, m, log, us, HeadKey(id, v));
    forall n | 0 <= n < |log| && log[n].v == v && Encode(c, HeadKey(id, v)) in m
      ensures m[Encode(c, HeadKey(id, v))].Raw?
      ensures ParseHeadVal(m[Encode(c, HeadKey(id, v))].bytes) == Some((log[n].c, log[n].d, Num(log[n])))
    {
      var j :| 0 <= j < |log| && EntryOf(c, log[j], HeadKey(id, v), m[Encode(c, HeadKey(id, v))]);
      assert j == n;
      HeadValRoundTrip(c, log[n].c, log[n].d, Num(log[n]));
    }
  }
}
