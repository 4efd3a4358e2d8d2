/**
 * What the four indexes and the per-perspective slot of a tree hold for a given log, and how
 * one more item changes them.
 */
module Index {
  import opened Items
  import opened Bytes
  import opened Dag
  import opened Keys
  import opened Log
  import opened Store

  type Slots = map<Name, Version>

  /** The keys under the tree's name. */
  ghost predicate Owned(c: Conf, b: Bytes)
    requires |c.name| <= 254
  {
    exists tag: byte :: 1 <= tag <= 5 && Prefix(c.name, tag) <= b
  }

  ghost predicate Fitted(c: Conf, log: seq<Item>, us: Slots) {
    && Ok(c)
    && (forall j :: 0 <= j < |log| ==> Fitting(c, log[j]) && Num(log[j]) < Pow256(c.iSize))
    && (forall pe :: pe in us ==> |pe| < 256 && |us[pe].bytes| == c.vSize)
  }

  /** Which keys a tree with this log has. */
  ghost predicate Present(log: seq<Item>, us: Slots, k: Key) {
    match k
    case DsKey(id, i) => exists j :: 0 <= j < |log| && log[j].id == id && log[j].i == Some(i)
    case IKey(i) => exists j :: 0 <= j < |log| && log[j].i == Some(i)
    case HeadKey(id, v) => HasOf(log, id, v) && Childless(log, v)
    case VKey(v) => Has(log, v)
    case UsKey(pe) => pe in us
  }

  /** The entry that belongs under a key on account of one item. */
  ghost predicate EntryOf(c: Conf, it: Item, k: Key, x: DbVal)
    requires Ok(c) && Fitting(c, it) && Num(it) < Pow256(c.iSize)
  {
    match k
    case DsKey(id, i) => it.id == id && it.i == Some(i) && x == Doc(it)
    case IKey(i) => it.i == Some(i) && x == Raw(Encode(c, HeadKey(it.id, it.v)))
    case HeadKey(id, v) => it.id == id && it.v == v && x == Raw(HeadVal(c, it.c, it.d, Num(it)))
    case VKey(v) => it.v == v && x == Raw(Encode(c, DsKey(it.id, Num(it))))
    case UsKey(_) => false
  }

  /** What is stored under a key that is present. */
  ghost predicate Holds(c: Conf, log: seq<Item>, us: Slots, k: Key, x: DbVal)
    requires Fitted(c, log, us)
  {
    if k.UsKey? then k.pe in us && x == Raw(Encode(c, VKey(us[k.pe])))
    else exists j :: 0 <= j < |log| && EntryOf(c, log[j], k, x)
  }

  /** The store agrees with the log on one key. */
  ghost predicate AgreesOn(c: Conf, m: Db, log: seq<Item>, us: Slots, k: Key)
    requires Fitted(c, log, us)
  {
    Fits(c, k) ==>
      && (Encode(c, k) in m <==> Present(log, us, k))
      && (Encode(c, k) in m ==> Holds(c, log, us, k, m[Encode(c, k)]))
  }

  /** The tree's part of the store holds exactly what the log calls for. */
  ghost predicate Agrees(c: Conf, m: Db, log: seq<Item>, us: Slots) {
    && Fitted(c, log, us)
    && (forall k :: AgreesOn(c, m, log, us, k))
    && (forall b :: b in m && Owned(c, b) ==> exists k :: Fits(c, k) && b == Encode(c, k))
  }

  /** Nothing outside the tree changed. */
  ghost predicate Foreign(c: Conf, m: Db, m': Db)
    requires |c.name| <= 254
  {
    forall b :: !Owned(c, b) ==> (b in m' <==> b in m) && (b in m ==> m'[b] == m[b])
  }

  lemma EncodedIsOwned(c: Conf, k: Key)
    requires Ok(c) && Fits(c, k)
    ensures Owned(c, Encode(c, k))
  {
    assert Prefix(c.name, Tag(k)) <= Encode(c, k);
  }

  /** Trees with different names own different keys, so one tree's writes leave the other alone. */
  lemma ForeignAgrees(c: Conf, c': Conf, m: Db, m': Db, log: seq<Item>, us: Slots)
    requires Agrees(c', m, log, us) && Ok(c) && c.name != c'.name && Foreign(c, m, m')
    ensures Agrees(c', m', log, us)
  {
    forall b | Owned(c', b) ensures !Owned(c, b) {
      if tag: byte :| 1 <= tag <= 5 && Prefix(c.name, tag) <= b {
        var tag': byte :| 1 <= tag' <= 5 && Prefix(c'.name, tag') <= b;
        OnePrefix(c.name, tag, c'.name, tag', b);
      }
    }
    forall k ensures AgreesOn(c', m', log, us, k) {
      assert AgreesOn(c', m, log, us, k);
      if Fits(c', k) { EncodedIsOwned(c', k); }
    }
  }

  lemma OnePrefix(name: Bytes, tag: byte, name': Bytes, tag': byte, b: Bytes)
    requires |name| <= 254 && |name'| <= 254 && Prefix(name, tag) <= b && Prefix(name', tag') <= b
    ensures name == name'
  {
    assert Prefix(name, tag)[0] == b[0] == Prefix(name', tag')[0];
    assert name == b[1..|name| + 1] == name';
  }

  // ---- one more item ----

  /** The deletions for the parents of an item. */
  ghost function DelHeads(c: Conf, id: Id, pa: seq<Version>): (ops: seq<Op>)
    requires Ok(c) && TextId(id.bytes) && forall p :: p in pa ==> |p.bytes| == c.vSize
  {
    if pa == [] then [] else DelHeads(c, id, pa[..|pa| - 1]) + [Del(Encode(c, HeadKey(id, pa[|pa| - 1])))]
  }

  ghost predicate Stores(c: Conf, it: Item) {
    Ok(c) && Fitting(c, it) && Num(it) < Pow256(c.iSize)
  }

  ghost function SlotOps(c: Conf, it: Item): seq<Op>
    requires Ok(c) && |it.v.bytes| == c.vSize && (it.pe.Some? ==> |it.pe.value| < 256)
  {
    if it.pe.Some? && it.pe.value != c.name
    then [Put(Encode(c, UsKey(it.pe.value)), Raw(Encode(c, VKey(it.v))))] else []
  }

  ghost function SlotsAfter(name: Name, us: Slots, it: Item): Slots {
    if it.pe.Some? && it.pe.value != name then us[it.pe.value := it.v] else us
  }

  lemma DelHeadsStep(c: Conf, m: Db, id: Id, pa: seq<Version>)
    requires Ok(c) && TextId(id.bytes) && (forall p :: p in pa ==> |p.bytes| == c.vSize) && pa != []
    ensures var n := |pa| - 1;
      Apply(m, DelHeads(c, id, pa)) == Apply(m, DelHeads(c, id, pa[..n])) - {Encode(c, HeadKey(id, pa[n]))}
  {
    hide Encode, TextId;
  }

  lemma InLast(pa: seq<Version>, v: Version)
    requires pa != []
    ensures v in pa <==> v in pa[..|pa| - 1] || v == pa[|pa| - 1]
  {
    assert pa == pa[..|pa| - 1] + [pa[|pa| - 1]];
  }

  lemma {:induction false} DelHeadsEffect(c: Conf, m: Db, id: Id, pa: seq<Version>, k: Key)
    requires Ok(c) && TextId(id.bytes) && (forall p :: p in pa ==> |p.bytes| == c.vSize) && Fits(c, k)
    ensures var m' := Apply(m, DelHeads(c, id, pa));
      && (Encode(c, k) in m' <==> Encode(c, k) in m && !(k.HeadKey? && k.id == id && k.v in pa))
      && (Encode(c, k) in m' ==> m'[Encode(c, k)] == m[Encode(c, k)])
  {
    if pa != [] {
      var n := |pa| - 1;
      DelHeadsEffect(c, m, id, pa[..n], k);
      DelHeadsStep(c, m, id, pa);
      hide Encode, TextId, Apply, DelHeads;
      var d := HeadKey(id, pa[n]);
      assert pa[n] in pa;
      Tell(c, d, k);
      InLast(pa, if k.HeadKey? then k.v else pa[n]);
    }
  }

  lemma {:induction false} DelHeadsForeign(c: Conf, m: Db, id: Id, pa: seq<Version>)
    requires Ok(c) && TextId(id.bytes) && (forall p :: p in pa ==> |p.bytes| == c.vSize)
    ensures var m' := Apply(m, DelHeads(c, id, pa)); Foreign(c, m, m') && m'.Keys <= m.Keys
  {
    if pa != [] {
      var n := |pa| - 1;
      DelHeadsForeign(c, m, id, pa[..n]);
      EncodedIsOwned(c, HeadKey(id, pa[n]));
    }
  }

  /** The keys of an item and what is put under them. */
  ghost function Filed(c: Conf, m: Db, it: Item): Db
    requires Stores(c, it)
  {
    m[Encode(c, HeadKey(it.id, it.v)) := Raw(HeadVal(c, it.c, it.d, Num(it)))]
     [Encode(c, IKey(Num(it))) := Raw(Encode(c, HeadKey(it.id, it.v)))]
     [Encode(c, VKey(it.v)) := Raw(Encode(c, DsKey(it.id, Num(it))))]
     [Encode(c, DsKey(it.id, Num(it))) := Doc(it)]
  }

  lemma FiledEffect(c: Conf, m: Db, it: Item, k: Key)
    requires Stores(c, it) && it.i.Some? && Fits(c, k)
    ensures var m' := Filed(c, m, it);
      var own := Own(it, k);
      && (Encode(c, k) in m' <==> own || Encode(c, k) in m)
      && (own ==> EntryOf(c, it, k, m'[Encode(c, k)]))
      && (!own && Encode(c, k) in m ==> m'[Encode(c, k)] == m[Encode(c, k)])
  {
    hide Encode, Ok;
    var a, b, d, e := HeadKey(it.id, it.v), IKey(Num(it)), VKey(it.v), DsKey(it.id, Num(it));
    Tell(c, a, k);
    Tell(c, b, k);
    Tell(c, d, k);
    Tell(c, e, k);
  }

  lemma Tell(c: Conf, a: Key, b: Key)
    requires Ok(c) && Fits(c, a) && Fits(c, b)
    ensures Encode(c, a) == Encode(c, b) <==> a == b
  {
    if Encode(c, a) == Encode(c, b) { EncodeInjective(c, a, c, b); }
  }

  /** Filing the next item, after the heads it replaces are gone, keeps the indexes in step with the log. */
  lemma FileItem(c: Conf, m: Db, log: seq<Item>, us: Slots, it: Item)
    requires Agrees(c, m, log, us) && WF(c, log + [it]) && Stores(c, it)
    ensures var m' := Filed(c, Apply(m, DelHeads(c, it.id, it.pa)), it);
      Agrees(c, m', log + [it], us) && Foreign(c, m, m')
  {
    hide AgreesOn, WF, Filed, Apply, DelHeads, Encode, Fitting;
    StillFitted(c, log, us, it);
    var m1 := Apply(m, DelHeads(c, it.id, it.pa));
    var m' := Filed(c, m1, it);
    forall k ensures AgreesOn(c, m', log + [it], us, k) {
      FileKey(c, m, log, us, it, k);
    }
    DelHeadsForeign(c, m, it.id, it.pa);
    FiledForeign(c, m1, it);
  }

  lemma StillFitted(c: Conf, log: seq<Item>, us: Slots, it: Item)
    requires Fitted(c, log, us) && Stores(c, it)
    ensures Fitted(c, log + [it], us)
    ensures TextId(it.id.bytes) && forall p :: p in it.pa ==> |p.bytes| == c.vSize
    ensures it.i.Some? || Num(it) == 0
  {
  }

  lemma FiledForeign(c: Conf, m: Db, it: Item)
    requires Stores(c, it)
    ensures Foreign(c, m, Filed(c, m, it))
    ensures forall b :: b in Filed(c, m, it) && b !in m ==> exists k :: Fits(c, k) && b == Encode(c, k)
  {
    EncodedIsOwned(c, HeadKey(it.id, it.v));
    EncodedIsOwned(c, IKey(Num(it)));
    EncodedIsOwned(c, VKey(it.v));
    EncodedIsOwned(c, DsKey(it.id, Num(it)));
  }

  lemma FileKey(c: Conf, m: Db, log: seq<Item>, us: Slots, it: Item, k: Key)
    requires Agrees(c, m, log, us) && WF(c, log + [it]) && Stores(c, it) && Fitted(c, log + [it], us)
    ensures AgreesOn(c, Filed(c, Apply(m, DelHeads(c, it.id, it.pa)), it), log + [it], us, k)
  {
    hide Filed, Apply, DelHeads, Encode, WF, Present, Holds, EntryOf;
    assert AgreesOn(c, m, log, us, k);
    if Fits(c, k) {
      assert (log + [it])[|log|] == it;
      LastStamped(c, log, it);
      var m1 := Apply(m, DelHeads(c, it.id, it.pa));
      DelHeadsEffect(c, m, it.id, it.pa, k);
      FiledEffect(c, m1, it, k);
      PresentGrows(c, log, us, it, k);
      if Encode(c, k) in m1 {
        HoldsGrows(c, log, us, it, k, m1[Encode(c, k)]);
      }
      if Encode(c, k) in Filed(c, m1, it) {
        HoldsGrows(c, log, us, it, k, Filed(c, m1, it)[Encode(c, k)]);
      }
    }
  }

  lemma LastStamped(c: Conf, log: seq<Item>, it: Item)
    requires WF(c, log + [it])
    ensures it.i.Some?
  {
    assert (log + [it])[|log|] == it;
  }

  ghost predicate Own(it: Item, k: Key) {
    k == HeadKey(it.id, it.v) || k == IKey(Num(it)) || k == VKey(it.v) || k == DsKey(it.id, Num(it))
  }

  lemma PresentGrows(c: Conf, log: seq<Item>, us: Slots, it: Item, k: Key)
    requires WF(c, log + [it])
    ensures Present(log + [it], us, k) <==>
              Own(it, k) || (Present(log, us, k) && !(k.HeadKey? && k.id == it.id && k.v in it.pa))
  {
    var L := log + [it];
    assert L[|log|] == it;
    assert forall j :: 0 <= j < |log| ==> L[j] == log[j];
    match k
    case HeadKey(id, v) => HeadGrows(c, log, it, id, v);
    case _ =>
  }

  lemma HeadGrows(c: Conf, log: seq<Item>, it: Item, id: Id, v: Version)
    requires WF(c, log + [it])
    ensures HasOf(log + [it], id, v) && Childless(log + [it], v) <==>
              (id == it.id && v == it.v) || (HasOf(log, id, v) && Childless(log, v) && !(id == it.id && v in it.pa))
  {
    var L := log + [it];
    assert L[|log|] == it;
    assert forall j :: 0 <= j < |log| ==> L[j] == log[j];
    NewestIsHead(c, L, |log|);
    if v in it.pa {
      assert Earlier(L, |log|, v);
    }
    if HasOf(log, id, v) {
      var j :| 0 <= j < |log| && log[j].id == id && log[j].v == v;
      assert L[j].id == id && L[j].v == v;
    }
  }

  lemma HoldsGrows(c: Conf, log: seq<Item>, us: Slots, it: Item, k: Key, x: DbVal)
    requires Fitted(c, log + [it], us) && Fitted(c, log, us) && Stores(c, it)
    ensures Holds(c, log, us, k, x) ==> Holds(c, log + [it], us, k, x)
    ensures !k.UsKey? && EntryOf(c, it, k, x) ==> Holds(c, log + [it], us, k, x)
  {
    var L := log + [it];
    assert L[|log|] == it;
    if !k.UsKey? && Holds(c, log, us, k, x) {
      var j :| 0 <= j < |log| && EntryOf(c, log[j], k, x);
      assert EntryOf(c, L[j], k, x);
    }
  }

  /** Setting a slot. */
  lemma SetSlot(c: Conf, m: Db, log: seq<Item>, us: Slots, it: Item)
    requires Agrees(c, m, log, us) && Fitting(c, it)
    ensures var m' := Apply(m, SlotOps(c, it));
      Agrees(c, m', log, SlotsAfter(c.name, us, it)) && Foreign(c, m, m')
  {
    var us' := SlotsAfter(c.name, us, it);
    var ops := SlotOps(c, it);
    var m' := Apply(m, ops);
    if ops == [] {
    } else {
      var a := UsKey(it.pe.value);
      assert Apply(m, ops[..0]) == m;
      EncodedIsOwned(c, a);
      forall k ensures AgreesOn(c, m', log, us', k) {
        assert AgreesOn(c, m, log, us, k);
        if Fits(c, k) {
          Tell(c, a, k);
        }
      }
    }
  }
}
