/** Index-driven streams of a tree, and the reader that keeps following it. */
module Stream {
  import opened Items
  import opened Bytes
  import opened Dag
  import opened Keys
  import opened KeyBuffers
  import opened Log
  import opened Store
  import opened Index
  import opened Tree
  import opened Meet

  /** What part of a tree to stream; a limit of zero is none. */
  datatype Opts = Opts(id: Option<Id>, first: Option<Version>, last: Option<Version>,
                       excludeFirst: bool, excludeLast: bool, reverse: bool, limit: nat := 0)

  /** The position of a version in the log, or its length. */
  ghost function Pos(log: seq<Item>, v: Version): (r: nat)
    ensures r <= |log|
  {
    if log == [] || log[0].v == v then 0 else 1 + Pos(log[1..], v)
  }

  ghost predicate Matches(id: Option<Id>, it: Item) {
    id.Some? ==> it.id == id.value
  }

  /** The positions in `[a, b)` whose item has the wanted id, in order. */
  ghost function Positions(log: seq<Item>, a: nat, b: nat, id: Option<Id>): (ps: seq<nat>)
    requires b <= |log|
    ensures forall j :: 0 <= j < |ps| ==> ps[j] < |log|
    decreases b
  {
    if b <= a then [] else
      Positions(log, a, b - 1, id) + if Matches(id, log[b - 1]) then [b - 1] else []
  }

  ghost function StartOf(log: seq<Item>, o: Opts): nat {
    if o.first.None? then 0 else Pos(log, o.first.value) + if o.excludeFirst then 1 else 0
  }

  /** Where a stream ends. With an id, excluding the last version has no effect. */
  ghost function StopOf(log: seq<Item>, o: Opts): (r: nat)
    ensures r <= |log|
  {
    if o.last.None? then |log| else
      var p := Pos(log, o.last.value);
      if (o.excludeLast && o.id.None?) || p == |log| then p else p + 1
  }

  ghost function Slice(log: seq<Item>, ps: seq<nat>): seq<Item>
    requires forall j :: 0 <= j < |ps| ==> ps[j] < |log|
  {
    seq(|ps|, j requires 0 <= j < |ps| => log[ps[j]])
  }

  ghost function Reversed(s: seq<Item>): (r: seq<Item>)
    ensures |r| == |s| && forall j :: 0 <= j < |s| ==> r[j] == s[|s| - 1 - j]
  {
    seq(|s|, j requires 0 <= j < |s| => s[|s| - 1 - j])
  }

  /** A stream is cut at its end: the first `limit` items, or all if there are no more or there is no limit. */
  ghost predicate CutAt(r: seq<Item>, all: seq<Item>, limit: nat) {
    && r <= all && |r| == (if limit == 0 || |all| <= limit then |all| else limit)
    && (limit == 0 ==> r == all)
  }

  function Limited(s: seq<Item>, limit: nat): (r: seq<Item>)
    ensures CutAt(r, s, limit)
  {
    if limit == 0 || |s| <= limit then s else s[..limit]
  }

  /** The part of the log a stream is to yield. */
  ghost function Wanted(log: seq<Item>, o: Opts): seq<Item> {
    var ps := Positions(log, StartOf(log, o), StopOf(log, o), o.id);
    Limited(if o.reverse then Reversed(Slice(log, ps)) else Slice(log, ps), o.limit)
  }

  lemma {:induction false} PosIs(log: seq<Item>, v: Version)
    ensures Pos(log, v) <= |log| && (Pos(log, v) < |log| <==> Has(log, v))
    ensures Pos(log, v) < |log| ==> log[Pos(log, v)].v == v
    decreases |log|
  {
    if log != [] && log[0].v != v {
      PosIs(log[1..], v);
      if Has(log, v) {
        var k :| 0 <= k < |log| && log[k].v == v;
        assert log[1..][k - 1].v == v;
      }
      if Has(log[1..], v) {
        var k :| 0 <= k < |log[1..]| && log[1..][k].v == v;
        assert log[k + 1].v == v;
      }
    }
  }

  /** The increasing positions in `[a, b)` whose item has the wanted id. */
  ghost predicate ArePositions(log: seq<Item>, a: nat, b: nat, id: Option<Id>, ps: seq<nat>)
    requires b <= |log|
  {
    && (forall i, j :: 0 <= i < j < |ps| ==> ps[i] < ps[j])
    && (forall j :: 0 <= j < |ps| ==> a <= ps[j] < b && Matches(id, log[ps[j]]))
    && (forall p: nat :: a <= p < b && Matches(id, log[p]) ==> p in ps)
  }

  lemma {:induction false} PositionsAre(log: seq<Item>, a: nat, b: nat, id: Option<Id>)
    requires b <= |log|
    ensures var ps := Positions(log, a, b, id);
      && (forall i, j :: 0 <= i < j < |ps| ==> ps[i] < ps[j])
      && (forall p :: p in ps <==> a <= p < b && Matches(id, log[p]))
      && (forall j :: 0 <= j < |ps| ==> a <= ps[j] < b && Matches(id, log[ps[j]]))
  {
    PositionsArePositions(log, a, b, id);
    hide Positions, Matches;
  }

  lemma {:induction false} PositionsArePositions(log: seq<Item>, a: nat, b: nat, id: Option<Id>)
    requires b <= |log|
    ensures ArePositions(log, a, b, id, Positions(log, a, b, id))
    decreases b
  {
    if b > a {
      PositionsArePositions(log, a, b - 1, id);
      OnePositionMore(log, a, b, id);
      OneMorePosition(log, a, b, id, Positions(log, a, b - 1, id));
    }
  }

  lemma OneMorePosition(log: seq<Item>, a: nat, b: nat, id: Option<Id>, ps: seq<nat>)
    requires a < b <= |log| && ArePositions(log, a, b - 1, id, ps)
    ensures ArePositions(log, a, b, id, ps + if Matches(id, log[b - 1]) then [b - 1] else [])
  {
    var qs := ps + if Matches(id, log[b - 1]) then [b - 1] else [];
    forall p: nat | a <= p < b && Matches(id, log[p]) ensures p in qs {
      if p < b - 1 {
        assert p in ps;
      } else {
        assert qs[|ps|] == p;
      }
    }
  }

  lemma OnePositionMore(log: seq<Item>, a: nat, b: nat, id: Option<Id>)
    requires a < b <= |log|
    ensures Positions(log, a, b, id) == Positions(log, a, b - 1, id) + if Matches(id, log[b - 1]) then [b - 1] else []
  {
  }

  /** Without an id, the stream is a contiguous slice of the log. */
  lemma {:induction false} AllPositions(log: seq<Item>, a: nat, b: nat)
    requires a <= b <= |log|
    ensures var ps := Positions(log, a, b, None); |ps| == b - a && forall j :: 0 <= j < |ps| ==> ps[j] == a + j
    decreases b
  {
    if b > a {
      AllPositions(log, a, b - 1);
    }
  }

  lemma WantedIsSlice(log: seq<Item>, o: Opts)
    requires o.id.None?
    ensures var a, b := StartOf(log, o), StopOf(log, o);
      var slice := if a < b then log[a..b] else [];
      CutAt(Wanted(log, o), if o.reverse then Reversed(slice) else slice, o.limit)
  {
    hide StartOf, StopOf, Slice, Limited, CutAt;
    var a, b := StartOf(log, o), StopOf(log, o);
    if a < b {
      hide Positions;
      AllPositions(log, a, b);
      SliceIs(log, Positions(log, a, b, None), a, b);
    } else {
      SliceIs(log, [], 0, 0);
    }
  }

  /**
   * Whatever the options, a stream yields the items between its bounds that have the wanted id, each once,
   * in the order of the log or against it, and no more than the limit allows.
   */
  lemma WantedAre(log: seq<Item>, o: Opts) returns (ps: seq<nat>, all: seq<Item>)
    ensures ArePositions(log, StartOf(log, o), StopOf(log, o), o.id, ps)
    ensures |all| == |ps| && forall j :: 0 <= j < |ps| ==> all[j] == log[ps[if o.reverse then |ps| - 1 - j else j]]
    ensures CutAt(Wanted(log, o), all, o.limit)
  {
    hide Positions, StartOf, StopOf, CutAt, Limited, ArePositions, Slice;
    ps := Positions(log, StartOf(log, o), StopOf(log, o), o.id);
    PositionsArePositions(log, StartOf(log, o), StopOf(log, o), o.id);
    SliceHas(log, ps);
    all := if o.reverse then Reversed(Slice(log, ps)) else Slice(log, ps);
  }

  lemma SliceHas(log: seq<Item>, ps: seq<nat>)
    requires forall j :: 0 <= j < |ps| ==> ps[j] < |log|
    ensures |Slice(log, ps)| == |ps| && forall j :: 0 <= j < |ps| ==> Slice(log, ps)[j] == log[ps[j]]
  {
  }

  /** The limit only cuts: a limited stream is the beginning of the stream with the same options and none. */
  lemma LimitIsPrefix(log: seq<Item>, o: Opts)
    ensures CutAt(Wanted(log, o), Wanted(log, o.(limit := 0)), o.limit)
  {
    hide Positions, StartOf, StopOf, CutAt, Limited;
    LimitsAgree(log, o);
    var ps := Positions(log, StartOf(log, o), StopOf(log, o), o.id);
    Unlimited(if o.reverse then Reversed(Slice(log, ps)) else Slice(log, ps));
  }

  lemma LimitsAgree(log: seq<Item>, o: Opts)
    ensures StartOf(log, o.(limit := 0)) == StartOf(log, o) && StopOf(log, o.(limit := 0)) == StopOf(log, o)
  {
    hide Pos;
  }

  lemma Unlimited(s: seq<Item>)
    ensures Limited(s, 0) == s
  {
    assert CutAt(Limited(s, 0), s, 0);
  }

  lemma SliceIs(log: seq<Item>, ps: seq<nat>, a: nat, b: nat)
    requires a <= b <= |log| && |ps| == b - a && forall j :: 0 <= j < |ps| ==> ps[j] == a + j
    ensures Slice(log, ps) == log[a..b]
  {
  }

  // ---- the stream of a tree ----

  /** The key a stream walks for an item: its data key with an id, its insertion key without. */
  function KeyFor(id: Option<Id>, it: Item): Key {
    if id.Some? then DsKey(it.id, Num(it)) else IKey(Num(it))
  }

  ghost function NumOf(log: seq<Item>, v: Option<Version>): Option<nat> {
    if v.None? || Pos(log, v.value) == |log| then None else Some(Num(log[Pos(log, v.value)]))
  }

  ghost function RangeFor(c: Conf, id: Option<Id>, first: Option<nat>, last: Option<nat>): Range
    requires Ok(c) && BoundOk(c, first) && BoundOk(c, last)
  {
    if id.Some? then DsKeyRange(c, id, first, last) else IKeyRange(c, first, last)
  }

  lemma NumbersFit(c: Conf, m: Db, log: seq<Item>, us: Slots, o: Opts, p: nat)
    requires Sound(c, m, log, us) && p < |log|
    requires (o.first.Some? ==> Has(log, o.first.value)) && (o.last.Some? ==> Has(log, o.last.value))
    ensures Ok(c) && Numbered(log) && Num(log[p]) < Pow256(c.iSize)
    ensures BoundOk(c, NumOf(log, o.first)) && BoundOk(c, NumOf(log, o.last)) && Fits(c, KeyFor(o.id, log[p]))
  {
    if o.first.Some? { PosIs(log, o.first.value); }
    if o.last.Some? { PosIs(log, o.last.value); }
  }

  /** The number of an item lies between the bounds exactly when its position does. */
  lemma NumberBetween(log: seq<Item>, o: Opts, p: nat)
    requires Numbered(log) && p < |log|
    requires (o.first.Some? ==> Has(log, o.first.value)) && (o.last.Some? ==> Has(log, o.last.value))
    ensures var lo, hi, i := NumOf(log, o.first), NumOf(log, o.last), Num(log[p]);
      StartOf(log, o) <= p < StopOf(log, o) <==>
        && KeyBetween(lo, i, hi) && (o.excludeFirst ==> !(Given(lo) && i == lo.value))
        && (o.excludeLast && o.id.None? ==> !(Given(hi) && i == hi.value))
  {
    if o.first.Some? { PosIs(log, o.first.value); }
    if o.last.Some? { PosIs(log, o.last.value); }
  }

  /** Within the range of a stream lies exactly the key of every item it is to yield. */
  lemma KeyWithin(c: Conf, m: Db, log: seq<Item>, us: Slots, o: Opts, p: nat)
    requires Sound(c, m, log, us) && p < |log| && (o.id.Some? ==> NullFree(o.id.value.bytes))
    requires (o.first.Some? ==> Has(log, o.first.value)) && (o.last.Some? ==> Has(log, o.last.value))
    requires Matches(o.id, log[p])
    ensures BoundOk(c, NumOf(log, o.first)) && BoundOk(c, NumOf(log, o.last)) && Fits(c, KeyFor(o.id, log[p]))
    ensures Within(RangeFor(c, o.id, NumOf(log, o.first), NumOf(log, o.last)), o.excludeFirst, o.excludeLast,
                   Encode(c, KeyFor(o.id, log[p])))
            <==> StartOf(log, o) <= p < StopOf(log, o)
  {
    hide Encode, InRange, IKeyRange, DsKeyRange, Sound, NumOf, StartOf, StopOf;
    var lo, hi := NumOf(log, o.first), NumOf(log, o.last);
    NumbersFit(c, m, log, us, o, p);
    NumberBetween(log, o, p);
    var k := KeyFor(o.id, log[p]);
    if o.id.Some? {
      DsKeyRangeExact(c, o.id, lo, hi, c, k);
      DsKeyRangeBounds(c, o.id.value, lo, hi, Num(log[p]));
    } else {
      IKeyRangeExact(c, lo, hi, c, k);
      IKeyRangeBounds(c, lo, hi, Num(log[p]));
    }
  }

  /** The keys of the wanted items, in order. */
  ghost function KeysOf(c: Conf, log: seq<Item>, id: Option<Id>, ps: seq<nat>): (ks: seq<Bytes>)
    requires Ok(c) && forall j :: 0 <= j < |ps| ==> ps[j] < |log| && Fits(c, KeyFor(id, log[ps[j]]))
    ensures |ks| == |ps| && forall j :: 0 <= j < |ps| ==> ks[j] == Encode(c, KeyFor(id, log[ps[j]]))
  {
    seq(|ps|, j requires 0 <= j < |ps| => Encode(c, KeyFor(id, log[ps[j]])))
  }

  /** A scan of the range yields the keys of the wanted items, in order and nothing else. */
  lemma ScanIsWanted(c: Conf, m: Db, log: seq<Item>, us: Slots, o: Opts, ks: seq<Bytes>)
    requires Sound(c, m, log, us) && (o.id.Some? ==> NullFree(o.id.value.bytes))
    requires (o.first.Some? ==> Has(log, o.first.value)) && (o.last.Some? ==> Has(log, o.last.value))
    requires BoundOk(c, NumOf(log, o.first)) && BoundOk(c, NumOf(log, o.last))
    requires IsScan(m, RangeFor(c, o.id, NumOf(log, o.first), NumOf(log, o.last)), o.excludeFirst, o.excludeLast, ks)
    ensures var ps := Positions(log, StartOf(log, o), StopOf(log, o), o.id);
      (forall j :: 0 <= j < |ps| ==> Fits(c, KeyFor(o.id, log[ps[j]]))) && ks == KeysOf(c, log, o.id, ps)
  {
    hide Encode, InRange, Sound, RangeFor, KeyFor, Positions, Matches, NullFree;
    SoundOk(c, m, log, us);
    var ps := Positions(log, StartOf(log, o), StopOf(log, o), o.id);
    PositionsAre(log, StartOf(log, o), StopOf(log, o), o.id);
    forall j | 0 <= j < |ps| ensures Fits(c, KeyFor(o.id, log[ps[j]])) && Encode(c, KeyFor(o.id, log[ps[j]])) in ks {
      KeyWithin(c, m, log, us, o, ps[j]);
      KeyStored(c, m, log, us, o.id, ps[j]);
    }
    var ws := KeysOf(c, log, o.id, ps);
    forall i, j | 0 <= i < j < |ws| ensures Lt(ws[i], ws[j]) {
      KeyOrder(c, log, o.id, ps[i], ps[j]);
    }
    forall b | b in ks ensures b in ws {
      var p := ScannedItem(c, m, log, us, o, b);
      assert p in ps;
      var j :| 0 <= j < |ps| && ps[j] == p;
      assert ws[j] == b;
    }
    ScanUnique(ks, ws);
  }

  lemma KeyStored(c: Conf, m: Db, log: seq<Item>, us: Slots, id: Option<Id>, p: nat)
    requires Sound(c, m, log, us) && p < |log| && Fits(c, KeyFor(id, log[p]))
    ensures Ok(c) && Encode(c, KeyFor(id, log[p])) in m
  {
    IndexesLeadToItem(c, m, log, us, p);
  }

  lemma KeyOrder(c: Conf, log: seq<Item>, id: Option<Id>, p: nat, q: nat)
    requires Ok(c) && WF(c, log) && p < q < |log| && Matches(id, log[p]) && Matches(id, log[q])
    requires Fits(c, KeyFor(id, log[p])) && Fits(c, KeyFor(id, log[q]))
    ensures Lt(Encode(c, KeyFor(id, log[p])), Encode(c, KeyFor(id, log[q])))
  {
    if id.Some? {
      DsKeyOrder(c, id.value, Num(log[p]), Num(log[q]));
    } else {
      IKeyOrder(c, Num(log[p]), Num(log[q]));
    }
  }

  /** Every key of the range belongs to a wanted item. */
  lemma ScannedItem(c: Conf, m: Db, log: seq<Item>, us: Slots, o: Opts, b: Bytes) returns (p: nat)
    requires Sound(c, m, log, us) && (o.id.Some? ==> NullFree(o.id.value.bytes))
    requires (o.first.Some? ==> Has(log, o.first.value)) && (o.last.Some? ==> Has(log, o.last.value))
    requires BoundOk(c, NumOf(log, o.first)) && BoundOk(c, NumOf(log, o.last))
    requires b in m && Within(RangeFor(c, o.id, NumOf(log, o.first), NumOf(log, o.last)), o.excludeFirst, o.excludeLast, b)
    ensures p < |log| && Matches(o.id, log[p]) && StartOf(log, o) <= p < StopOf(log, o)
    ensures Fits(c, KeyFor(o.id, log[p])) && b == Encode(c, KeyFor(o.id, log[p]))
  {
    hide Encode, InRange, IKeyRange, DsKeyRange, WF, StartOf, StopOf, Present, Holds;
    var lo, hi := NumOf(log, o.first), NumOf(log, o.last);
    RangeOwned(c, o.id, lo, hi, b);
    var k :| Fits(c, k) && b == Encode(c, k);
    assert AgreesOn(c, m, log, us, k);
    if o.id.Some? {
      DsKeyRangeExact(c, o.id, lo, hi, c, k);
    } else {
      IKeyRangeExact(c, lo, hi, c, k);
    }
    p := PresentItem(log, us, k);
    KeyWithin(c, m, log, us, o, p);
  }

  lemma PresentItem(log: seq<Item>, us: Slots, k: Key) returns (p: nat)
    requires Present(log, us, k) && (k.DsKey? || k.IKey?)
    ensures p < |log| && log[p].i == Some(k.i) && (k.DsKey? ==> log[p].id == k.id)
  {
    if k.DsKey? {
      p :| 0 <= p < |log| && log[p].id == k.id && log[p].i == Some(k.i);
    } else {
      p :| 0 <= p < |log| && log[p].i == Some(k.i);
    }
  }

  lemma RangeOwned(c: Conf, id: Option<Id>, lo: Option<nat>, hi: Option<nat>, b: Bytes)
    requires Ok(c) && BoundOk(c, lo) && BoundOk(c, hi) && InRange(RangeFor(c, id, lo, hi), b)
    ensures Owned(c, b)
  {
    hide Number, Lt;
    var r := RangeFor(c, id, lo, hi);
    var tag: byte := if id.Some? then 1 else 2;
    var p := Prefix(c.name, tag);
    var x :| r.e == p + x;
    var y :| r.s == p + y;
    PrefixLe(p, r.s);
    LeTrans(p, r.s, b);
    Between(p, x, b);
  }

  /** The insertion number of a version, if the tree has it. */
  method ResolveVtoI(tree: Tree, v: Version) returns (i: Option<nat>)
    requires tree.Valid() && |v.bytes| == tree.c.vSize
    ensures i == NumOf(tree.log, Some(v)) && (i.Some? <==> Has(tree.log, v)) && BoundOk(tree.c, i)
  {
    hide Sound, Parse, Encode, WF;
    var c := tree.c;
    SoundOk(c, tree.store.m, tree.log, tree.us);
    VersionEntry(c, tree.store.m, tree.log, tree.us, v);
    PosIs(tree.log, v);
    var vKey := ComposeVKey(c, v);
    if vKey !in tree.store.m {
      return None;
    }
    ghost var j :| 0 <= j < |tree.log| && tree.log[j].v == v && Fits(c, DsKey(tree.log[j].id, Num(tree.log[j])))
                   && tree.store.m[vKey] == Raw(Encode(c, DsKey(tree.log[j].id, Num(tree.log[j]))));
    if j != Pos(tree.log, v) {
      var k := Pos(tree.log, v);
      TwoVersions(c, tree.log, if j < k then j else k, if j < k then k else j);
    }
    ParseEncode(c, DsKey(tree.log[j].id, Num(tree.log[j])));
    var r := ParseKey(tree.store.m[vKey].bytes);
    i := Some(r.key.i);
  }

  /**
   * The stream of a tree: it fails when a bounding version is not in the tree and otherwise
   * yields exactly the wanted part of the log.
   */
  method ReadStream(tree: Tree, o: Opts) returns (r: Option<seq<Item>>)
    requires tree.Valid() && (o.id.Some? ==> NullFree(o.id.value.bytes))
    requires (o.first.Some? ==> |o.first.value.bytes| == tree.c.vSize) && (o.last.Some? ==> |o.last.value.bytes| == tree.c.vSize)
    ensures r.Some? <==> (o.first.Some? ==> Has(tree.log, o.first.value)) && (o.last.Some? ==> Has(tree.log, o.last.value))
    ensures r.Some? ==> r.value == Wanted(tree.log, o) && CutAt(r.value, Wanted(tree.log, o.(limit := 0)), o.limit)
  {
    hide Sound, Parse, Encode, Positions, StartOf, StopOf, RangeFor, KeyFor, IsScan, CutAt;
    LimitIsPrefix(tree.log, o);
    var c := tree.c;
    SoundOk(c, tree.store.m, tree.log, tree.us);
    var first, last: Option<nat> := None, None;
    if o.first.Some? {
      first := ResolveVtoI(tree, o.first.value);
      if first.None? { return None; }
    }
    if o.last.Some? {
      last := ResolveVtoI(tree, o.last.value);
      if last.None? { return None; }
    }
    NumOfNone(tree.log);
    var range: Range;
    if o.id.Some? {
      range := GetDsKeyRange(c, o.id, first, last);
    } else {
      range := GetIKeyRange(c, first, last);
    }
    RangeIs(c, o.id, first, last);
    var ks := tree.store.Scan(range, o.excludeFirst, o.excludeLast);
    ghost var ps := Positions(tree.log, StartOf(tree.log, o), StopOf(tree.log, o), o.id);
    ScanIsWanted(c, tree.store.m, tree.log, tree.us, o, ks);
    PositionsAre(tree.log, StartOf(tree.log, o), StopOf(tree.log, o), o.id);
    var items := TransformAll(tree, o, ks, ps);
    r := Some(Limited(if o.reverse then Backwards(items) else items, o.limit));
  }

  lemma RangeIs(c: Conf, id: Option<Id>, first: Option<nat>, last: Option<nat>)
    requires Ok(c) && BoundOk(c, first) && BoundOk(c, last)
    ensures RangeFor(c, id, first, last) == if id.Some? then DsKeyRange(c, id, first, last) else IKeyRange(c, first, last)
  {
  }

  /** The items behind the keys of a scan. */
  method TransformAll(tree: Tree, o: Opts, ks: seq<Bytes>, ghost ps: seq<nat>) returns (items: seq<Item>)
    requires tree.Valid() && Ok(tree.c) && |ks| == |ps|
    requires forall j :: 0 <= j < |ps| ==> ps[j] < |tree.log| && Matches(o.id, tree.log[ps[j]])
    requires forall j :: 0 <= j < |ps| ==>
               Fits(tree.c, KeyFor(o.id, tree.log[ps[j]])) && ks[j] == Encode(tree.c, KeyFor(o.id, tree.log[ps[j]]))
    ensures items == Slice(tree.log, ps)
  {
    hide Sound, Parse, Encode, KeyFor, Fits, Matches;
    items := [];
    for n := 0 to |ks|
      invariant |items| == n && forall j :: 0 <= j < n ==> items[j] == tree.log[ps[j]]
    {
      var item := Transform(tree, o, ks[n], ps[n]);
      items := items + [item];
    }
  }

  function Backwards(s: seq<Item>): (r: seq<Item>)
    ensures r == Reversed(s)
  {
    seq(|s|, j requires 0 <= j < |s| => s[|s| - 1 - j])
  }

  lemma NumOfNone(log: seq<Item>)
    ensures NumOf(log, None) == None
  {
  }

  /** The item behind one key: the entry itself with an id, found through the head key without. */
  method Transform(tree: Tree, o: Opts, key: Bytes, ghost p: nat) returns (item: Item)
    requires tree.Valid() && p < |tree.log| && Matches(o.id, tree.log[p])
    requires Ok(tree.c) && Fits(tree.c, KeyFor(o.id, tree.log[p])) && key == Encode(tree.c, KeyFor(o.id, tree.log[p]))
    ensures item == tree.log[p]
  {
    hide Encode, Parse, Sound;
    var c := tree.c;
    IndexesLeadToItem(c, tree.store.m, tree.log, tree.us, p);
    if o.id.Some? {
      item := tree.store.m[key].item;
    } else {
      ParseEncode(c, IKey(Num(tree.log[p])));
      var k := ParseKey(key);
      var val := ParseKey(tree.store.m[key].bytes);
      var dsKey := ComposeDsKey(c, val.key.id, k.key.i);
      item := tree.store.m[dsKey].item;
    }
  }

  // ---- what the streams give to the search ----

  /**
   * The reversed stream of one id that ends at a version starts with that version, has children
   * before parents and every parent of its items: just what the ancestor search asks for.
   */
  lemma SuppliesSearch(c: Conf, log: seq<Item>, id: Id, last: Option<Version>)
    requires WF(c, log) && (last.Some? ==> HasOf(log, id, last.value))
    ensures
      var s := Wanted(log, Opts(Some(id), None, last, false, false, true));
      && Topological(s) && Closed(s)
      && (last.Some? ==> s != [] && s[0].v == last.value)
      && (forall k :: 0 <= k < |s| ==> s[k].id == id && s[k] in log)
  {
    hide WF, Topological, Closed, Positions, HasOf, Wanted, Back;
    var o := Opts(Some(id), None, last, false, false, true);
    var b := StopOf(log, o);
    var ps := Positions(log, 0, b, Some(id));
    PositionsAre(log, 0, b, Some(id));
    var s := Wanted(log, o);
    BackWanted(log, o, ps);
    BackIds(log, id, b, ps, s);
    BackTopological(c, log, ps, s);
    BackClosed(c, log, id, b, ps, s);
    if last.Some? {
      BackStarts(c, log, id, last.value, b, ps, s);
    }
  }

  lemma BackWanted(log: seq<Item>, o: Opts, ps: seq<nat>)
    requires o.reverse && o.limit == 0 && ps == Positions(log, StartOf(log, o), StopOf(log, o), o.id)
    ensures Back(log, ps, Wanted(log, o))
  {
    hide Positions, StartOf, StopOf;
  }

  /** `s` is the items at the positions `ps`, last position first. */
  ghost predicate Back(log: seq<Item>, ps: seq<nat>, s: seq<Item>) {
    && |s| == |ps| && (forall k :: 0 <= k < |ps| ==> ps[k] < |log|)
    && (forall k :: 0 <= k < |s| ==> s[k] == log[ps[|ps| - 1 - k]])
  }

  /** The positions of one id before `b`. */
  ghost predicate AllOf(log: seq<Item>, id: Id, b: nat, ps: seq<nat>) {
    && (forall i, j :: 0 <= i < j < |ps| ==> ps[i] < ps[j])
    && (forall p: nat :: p in ps <==> p < b && p < |log| && log[p].id == id)
  }

  lemma BackStarts(c: Conf, log: seq<Item>, id: Id, v: Version, b: nat, ps: seq<nat>, s: seq<Item>)
    requires WF(c, log) && HasOf(log, id, v) && AllOf(log, id, b, ps) && Back(log, ps, s)
    requires b == Pos(log, v) + 1 || Pos(log, v) == |log|
    ensures s != [] && s[0].v == v
  {
    PosIs(log, v);
    var j :| 0 <= j < |log| && log[j].id == id && log[j].v == v;
    assert j == b - 1;
    assert j in ps;
    var k :| 0 <= k < |ps| && ps[k] == j;
    assert ps[|ps| - 1] in ps;
    assert k == |ps| - 1;
  }

  lemma BackIds(log: seq<Item>, id: Id, b: nat, ps: seq<nat>, s: seq<Item>)
    requires AllOf(log, id, b, ps) && Back(log, ps, s)
    ensures forall k :: 0 <= k < |s| ==> s[k].id == id && s[k] in log
  {
    forall k | 0 <= k < |s| ensures s[k].id == id && s[k] in log {
      assert ps[|ps| - 1 - k] in ps;
    }
  }

  lemma BackTopological(c: Conf, log: seq<Item>, ps: seq<nat>, s: seq<Item>)
    requires WF(c, log) && Back(log, ps, s) && forall i, j :: 0 <= i < j < |ps| ==> ps[i] < ps[j]
    ensures Topological(s)
  {
    hide WF;
    var n := |ps|;
    forall i, j | 0 <= i < j < n ensures s[i].v != s[j].v {
      assert s[i] == log[ps[n - 1 - i]] && s[j] == log[ps[n - 1 - j]];
      TwoVersions(c, log, ps[n - 1 - j], ps[n - 1 - i]);
    }
    forall i, j | 0 <= i <= j < n ensures s[i].v !in s[j].pa {
      assert s[i] == log[ps[n - 1 - i]] && s[j] == log[ps[n - 1 - j]];
      NotParent(c, log, ps[n - 1 - i], ps[n - 1 - j]);
    }
  }

  lemma BackClosed(c: Conf, log: seq<Item>, id: Id, b: nat, ps: seq<nat>, s: seq<Item>)
    requires WF(c, log) && AllOf(log, id, b, ps) && Back(log, ps, s)
    ensures Closed(s)
  {
    hide WF;
    var n := |ps|;
    forall i, p | 0 <= i < n && p in s[i].pa ensures Has(s, p) {
      var at := ps[n - 1 - i];
      assert at in ps;
      var q := ParentBefore(c, log, at, p);
      assert q in ps;
      var k :| 0 <= k < n && ps[k] == q;
      assert s[n - 1 - k] == log[ps[n - 1 - (n - 1 - k)]];
    }
  }

  lemma TwoVersions(c: Conf, log: seq<Item>, p: nat, q: nat)
    requires WF(c, log) && p < q < |log|
    ensures log[p].v != log[q].v
  {
  }

  lemma ParentBefore(c: Conf, log: seq<Item>, k: nat, p: Version) returns (q: nat)
    requires WF(c, log) && k < |log| && p in log[k].pa
    ensures q < k && log[q].v == p && log[q].id == log[k].id
  {
    assert Earlier(log, k, p);
    q :| 0 <= q < k && log[q].v == p && log[q].id == log[k].id;
  }

  lemma NotParent(c: Conf, log: seq<Item>, p: nat, q: nat)
    requires WF(c, log) && q <= p < |log|
    ensures log[p].v !in log[q].pa
  {
  }
}
