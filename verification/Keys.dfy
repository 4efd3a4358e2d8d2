/**
 * The key space of the store: every tree owns the keys under its name, split over five types.
 * Encodings, their order, and the ranges used to scan them.
 */
module Keys {
  import opened Items
  import opened Bytes

  /** A tree's name and the byte widths of its insertion numbers and versions. */
  datatype Conf = Conf(name: Bytes, iSize: nat, vSize: nat)

  datatype Key =
    | DsKey(id: Id, i: nat)
    | IKey(i: nat)
    | HeadKey(id: Id, v: Version)
    | VKey(v: Version)
    | UsKey(pe: Name)

  predicate Ok(c: Conf) {
    |c.name| <= 254 && 0 < c.iSize < 255 && 0 < c.vSize < 255
  }

  predicate NullFree(b: Bytes) {
    forall k :: 0 <= k < |b| ==> b[k] != 0
  }

  predicate Continues(b: byte) {
    0x80 <= b < 0xc0
  }

  /** How many bytes the first character of a UTF-8 string takes, or zero: the syntax of section 4 of RFC 3629. */
  function CharLength(b: Bytes): (n: nat)
    ensures n <= |b|
  {
    if b == [] then 0
    else if b[0] < 0x80 then 1
    else if |b| < 2 || !Continues(b[1]) then 0
    else if 0xc2 <= b[0] < 0xe0 then 2
    else if |b| < 3 || !Continues(b[2]) then 0
    else if (b[0] == 0xe0 && b[1] >= 0xa0) || 0xe1 <= b[0] < 0xed then 3
    else if (b[0] == 0xed && b[1] < 0xa0) || 0xee <= b[0] < 0xf0 then 3
    else if |b| < 4 || !Continues(b[3]) then 0
    else if (b[0] == 0xf0 && b[1] >= 0x90) || 0xf1 <= b[0] < 0xf4 || (b[0] == 0xf4 && b[1] < 0x90) then 4
    else 0
  }

  predicate Utf8(b: Bytes) {
    b == [] || (CharLength(b) > 0 && Utf8(b[CharLength(b)..]))
  }

  /** An id that is text: a head key is composed from the text of an id, so every tree's ids are. */
  predicate TextId(id: Bytes) {
    NullFree(id) && Utf8(id)
  }

  /** The arguments a key can be composed from. */
  predicate Fits(c: Conf, k: Key) {
    match k
    case DsKey(id, i) => NullFree(id.bytes) && i < Pow256(c.iSize)
    case IKey(i) => i < Pow256(c.iSize)
    case HeadKey(id, v) => TextId(id.bytes) && |v.bytes| == c.vSize
    case VKey(v) => |v.bytes| == c.vSize
    case UsKey(pe) => |pe| < 256
  }

  function Tag(k: Key): byte {
    match k
    case DsKey(_, _) => 1
    case IKey(_) => 2
    case HeadKey(_, _) => 3
    case VKey(_) => 4
    case UsKey(_) => 5
  }

  function Prefix(name: Bytes, tag: byte): Bytes
    requires |name| <= 254
  {
    [|name|] + name + [0, tag]
  }

  function Number(i: nat, size: nat): Bytes
    requires 0 < size < 255 && i < Pow256(size)
  {
    [size] + WriteBE(i, size)
  }

  function Suffix(c: Conf, k: Key): Bytes
    requires Ok(c) && Fits(c, k)
  {
    match k
    case DsKey(id, i) => id.bytes + [0] + Number(i, c.iSize)
    case IKey(i) => Number(i, c.iSize)
    case HeadKey(id, v) => id.bytes + [0] + ([c.vSize] + v.bytes)
    case VKey(v) => [c.vSize] + v.bytes
    case UsKey(pe) => [|pe|] + pe + [0]
  }

  function Encode(c: Conf, k: Key): Bytes
    requires Ok(c) && Fits(c, k)
  {
    Prefix(c.name, Tag(k)) + Suffix(c, k)
  }

  /** The value of a head: option bits and the insertion number. */
  function HeadVal(c: Conf, conflict: bool, deleted: bool, i: nat): Bytes
    requires Ok(c) && i < Pow256(c.iSize)
  {
    [(if conflict then 1 else 0) + (if deleted then 2 else 0)] + Number(i, c.iSize)
  }

  // ---- unique decoding ----

  lemma PrefixOwner(name: Bytes, tag: byte, name': Bytes, tag': byte, x: Bytes)
    requires |name| <= 254 && |name'| <= 254 && Prefix(name, tag) <= Prefix(name', tag') + x
    ensures name == name' && tag == tag'
  {
    var p, q := Prefix(name, tag), Prefix(name', tag') + x;
    assert p[0] == q[0];
    assert p[1..|name| + 1] == name && q[1..|name| + 1] == name';
    assert p[|name| + 2] == q[|name| + 2];
  }

  /** Ids end at their first null byte. */
  lemma IdOwner(a: Bytes, b: Bytes, x: Bytes)
    requires NullFree(a) && NullFree(b) && a + [0] <= b + [0] + x
    ensures a == b
  {
    var p, q := a + [0], b + [0] + x;
    assert p[|a|] == q[|a|] == 0;
    assert |b| <= |a|;
    assert q[|b|] == p[|b|] == 0;
    assert a == p[..|a|] && b == q[..|a|];
  }

  lemma NumberInjective(i: nat, m: nat, j: nat, n: nat)
    requires 0 < m < 255 && 0 < n < 255 && i < Pow256(m) && j < Pow256(n) && Number(i, m) == Number(j, n)
    ensures i == j && m == n
  {
    assert Number(i, m)[0] == Number(j, n)[0];
    assert Number(i, m)[1..] == WriteBE(i, m) && Number(j, n)[1..] == WriteBE(j, n);
    WriteInjective(i, j, m);
  }

  /** No two keys share an encoding, whichever trees they belong to. */
  lemma EncodeInjective(c: Conf, k: Key, c': Conf, k': Key)
    requires Ok(c) && Ok(c') && Fits(c, k) && Fits(c', k') && Encode(c, k) == Encode(c', k')
    ensures c.name == c'.name && k == k'
  {
    PrefixOwner(c.name, Tag(k), c'.name, Tag(k'), Suffix(c', k'));
    var s, s' := Suffix(c, k), Suffix(c', k');
    assert Encode(c, k)[|c.name| + 3..] == s && Encode(c', k')[|c.name| + 3..] == s';
    match k
    case DsKey(id, i) =>
      IdOwner(id.bytes, k'.id.bytes, Number(k'.i, c'.iSize));
      assert s[|id.bytes| + 1..] == Number(i, c.iSize) && s'[|id.bytes| + 1..] == Number(k'.i, c'.iSize);
      NumberInjective(i, c.iSize, k'.i, c'.iSize);
    case IKey(i) =>
      NumberInjective(i, c.iSize, k'.i, c'.iSize);
    case HeadKey(id, v) =>
      IdOwner(id.bytes, k'.id.bytes, [c'.vSize] + k'.v.bytes);
      assert s[|id.bytes| + 2..] == v.bytes && s'[|id.bytes| + 2..] == k'.v.bytes;
    case VKey(v) =>
      assert s[1..] == v.bytes && s'[1..] == k'.v.bytes;
    case UsKey(pe) =>
      assert s[0] == s'[0] && s[1..|pe| + 1] == pe && s'[1..|pe| + 1] == k'.pe;
  }

  // ---- ranges ----

  /** The bounds of a scan, both inclusive. */
  datatype Range = Range(s: Bytes, e: Bytes)

  predicate InRange(r: Range, b: Bytes) {
    Le(r.s, b) && Le(b, r.e)
  }

  /** A bound that the source treats as given: present and not zero. */
  predicate Given(i: Option<nat>) {
    i.Some? && i.value != 0
  }

  predicate BoundOk(c: Conf, i: Option<nat>) {
    i.Some? ==> i.value < Pow256(c.iSize)
  }

  predicate KeyBetween(minI: Option<nat>, i: nat, maxI: Option<nat>) {
    (Given(minI) ==> minI.value <= i) && (Given(maxI) ==> i <= maxI.value)
  }

  function IKeyRange(c: Conf, minI: Option<nat>, maxI: Option<nat>): Range
    requires Ok(c) && BoundOk(c, minI) && BoundOk(c, maxI)
  {
    var p := Prefix(c.name, 2);
    Range(p + (if Given(minI) then Number(minI.value, c.iSize) else []),
          p + (if Given(maxI) then Number(maxI.value, c.iSize) else [255]))
  }

  function DsKeyRange(c: Conf, id: Option<Id>, minI: Option<nat>, maxI: Option<nat>): Range
    requires Ok(c) && BoundOk(c, minI) && BoundOk(c, maxI)
  {
    var p := Prefix(c.name, 1);
    match id
    case None => Range(p + [], p + [255])
    case Some(id) =>
      Range(p + (id.bytes + [0] + (if Given(minI) then Number(minI.value, c.iSize) else [])),
            p + (id.bytes + [0] + ((if Given(maxI) then Number(maxI.value, c.iSize) else []) + [255])))
  }

  function HeadKeyRange(c: Conf, id: Option<Id>): Range
    requires Ok(c)
  {
    var p := Prefix(c.name, 3);
    match id
    case None => Range(p + [], p + [255])
    case Some(id) => Range(p + (id.bytes + [0] + []), p + (id.bytes + [0] + [255]))
  }

  function VKeyRange(c: Conf): Range
    requires Ok(c)
  {
    var p := Prefix(c.name, 4);
    Range(p + [], p + ([c.vSize + 1] + seq(c.vSize + 1, _ => 255)))
  }

  /** A range under one prefix holds only keys of that tree and type. */
  lemma OwnRange(c: Conf, tag: byte, lo: Bytes, hi: Bytes, c': Conf, k: Key)
    requires Ok(c) && Ok(c') && Fits(c', k)
    ensures InRange(Range(Prefix(c.name, tag) + lo, Prefix(c.name, tag) + hi), Encode(c', k))
            <==> c'.name == c.name && Tag(k) == tag && Le(lo, Suffix(c', k)) && Le(Suffix(c', k), hi)
  {
    var p := Prefix(c.name, tag);
    var K := Encode(c', k);
    if InRange(Range(p + lo, p + hi), K) {
      PrefixLe(p, p + lo);
      LeTrans(p, p + lo, K);
      Between(p, hi, K);
      PrefixOwner(c.name, tag, c'.name, Tag(k), Suffix(c', k));
    }
    if c'.name == c.name && Tag(k) == tag {
      LtCancel(p, lo, Suffix(c', k));
      LtCancel(p, Suffix(c', k), hi);
      EqCancel(p, lo, Suffix(c', k));
      EqCancel(p, Suffix(c', k), hi);
    }
  }

  lemma EqCancel(p: Bytes, a: Bytes, b: Bytes)
    ensures p + a == p + b <==> a == b
  {
    assert (p + a)[|p|..] == a && (p + b)[|p|..] == b;
  }

  lemma LeTrans(a: Bytes, b: Bytes, c: Bytes)
    requires Le(a, b) && Le(b, c)
    ensures Le(a, c)
  {
    if a != b && b != c {
      LtTrans(a, b, c);
    }
  }

  lemma NumberOrder(i: nat, j: nat, n: nat)
    requires 0 < n < 255 && i < Pow256(n) && j < Pow256(n)
    ensures Lt(Number(i, n), Number(j, n)) <==> i < j
    ensures Le(Number(i, n), Number(j, n)) <==> i <= j
    ensures Lt([], Number(i, n)) && Lt(Number(i, n), [255])
  {
    LtCancel([n], WriteBE(i, n), WriteBE(j, n));
    WriteOrder(i, j, n);
    if Number(i, n) == Number(j, n) {
      NumberInjective(i, n, j, n);
    }
  }

  /** An insertion-order range selects exactly the insertion keys of its tree within the bounds. */
  lemma IKeyRangeExact(c: Conf, minI: Option<nat>, maxI: Option<nat>, c': Conf, k: Key)
    requires Ok(c) && BoundOk(c, minI) && BoundOk(c, maxI) && Ok(c') && Fits(c', k)
    requires c'.name == c.name ==> c'.iSize == c.iSize
    ensures InRange(IKeyRange(c, minI, maxI), Encode(c', k)) <==> c'.name == c.name && k.IKey? && KeyBetween(minI, k.i, maxI)
  {
    OwnRange(c, 2, if Given(minI) then Number(minI.value, c.iSize) else [],
             if Given(maxI) then Number(maxI.value, c.iSize) else [255], c', k);
    if c'.name == c.name && k.IKey? {
      NumberOrder(k.i, k.i, c.iSize);
      if Given(minI) { NumberOrder(minI.value, k.i, c.iSize); }
      if Given(maxI) { NumberOrder(k.i, maxI.value, c.iSize); }
    }
  }

  /** Excluding a bound drops exactly the key at that bound, when the bound was given. */
  lemma IKeyRangeBounds(c: Conf, minI: Option<nat>, maxI: Option<nat>, i: nat)
    requires Ok(c) && BoundOk(c, minI) && BoundOk(c, maxI) && i < Pow256(c.iSize)
    ensures Encode(c, IKey(i)) == IKeyRange(c, minI, maxI).s <==> Given(minI) && i == minI.value
    ensures Encode(c, IKey(i)) == IKeyRange(c, minI, maxI).e <==> Given(maxI) && i == maxI.value
  {
    var p := Prefix(c.name, 2);
    EqCancel(p, Number(i, c.iSize), if Given(minI) then Number(minI.value, c.iSize) else []);
    EqCancel(p, Number(i, c.iSize), if Given(maxI) then Number(maxI.value, c.iSize) else [255]);
    if Given(minI) && Number(i, c.iSize) == Number(minI.value, c.iSize) {
      NumberInjective(i, c.iSize, minI.value, c.iSize);
    }
    if Given(maxI) && Number(i, c.iSize) == Number(maxI.value, c.iSize) {
      NumberInjective(i, c.iSize, maxI.value, c.iSize);
    }
  }

  /** A range under an id selects only keys of that id; the rest of the key decides. */
  lemma UnderId(id: Bytes, lo: Bytes, hi: Bytes, id': Bytes, x: Bytes)
    requires NullFree(id) && NullFree(id')
    ensures Le(id + [0] + lo, id' + [0] + x) && Le(id' + [0] + x, id + [0] + hi)
            <==> id == id' && Le(lo, x) && Le(x, hi)
  {
    var p := id + [0];
    var K := id' + [0] + x;
    if Le(p + lo, K) && Le(K, p + hi) {
      PrefixLe(p, p + lo);
      LeTrans(p, p + lo, K);
      Between(p, hi, K);
      IdOwner(id, id', x);
    }
    if id == id' {
      LtCancel(p, lo, x);
      LtCancel(p, x, hi);
      EqCancel(p, lo, x);
      EqCancel(p, x, hi);
    }
  }

  lemma NumberBelow(i: nat, j: nat, n: nat)
    requires 0 < n < 255 && i < Pow256(n) && j < Pow256(n)
    ensures Le(Number(i, n), Number(j, n) + [255]) <==> i <= j
    ensures Number(i, n) != Number(j, n) + [255]
  {
    NumberOrder(i, j, n);
    var a, b := Number(i, n), Number(j, n);
    PrefixLe(b, b + [255]);
    if i <= j {
      LeTrans(a, b, b + [255]);
    } else {
      WriteOrder(j, i, n);
      LtCancel([n], WriteBE(j, n), WriteBE(i, n));
      LtExtend(b, a, [255], []);
      assert a + [] == a;
      LtTotal(a, b + [255]);
    }
  }

  /** Without an id, a range ends below the first byte 0xff, and misses the ids that start with it. */
  predicate Reached(id: Option<Id>, own: Id) {
    if id.Some? then own == id.value else own.bytes == [] || own.bytes[0] < 255
  }

  /**
   * A data range with an id selects exactly the data keys of that id within the bounds; without one,
   * those of all ids that do not start with 0xff.
   */
  lemma DsKeyRangeExact(c: Conf, id: Option<Id>, minI: Option<nat>, maxI: Option<nat>, c': Conf, k: Key)
    requires Ok(c) && BoundOk(c, minI) && BoundOk(c, maxI) && Ok(c') && Fits(c', k)
    requires (c'.name == c.name ==> c'.iSize == c.iSize) && (id.Some? ==> NullFree(id.value.bytes))
    ensures InRange(DsKeyRange(c, id, minI, maxI), Encode(c', k)) <==>
            c'.name == c.name && k.DsKey? && Reached(id, k.id) && (id.Some? ==> KeyBetween(minI, k.i, maxI))
  {
    var lo := if Given(minI) then Number(minI.value, c.iSize) else [];
    var hi := (if Given(maxI) then Number(maxI.value, c.iSize) else []) + [255];
    if id.None? {
      OwnRange(c, 1, [], [255], c', k);
      if k.DsKey? { BelowTop(k.id.bytes, Number(k.i, c'.iSize)); }
    } else {
      OwnRange(c, 1, id.value.bytes + [0] + lo, id.value.bytes + [0] + hi, c', k);
      if c'.name == c.name && k.DsKey? {
        UnderId(id.value.bytes, lo, hi, k.id.bytes, Number(k.i, c'.iSize));
        NumberOrder(k.i, k.i, c.iSize);
        if Given(minI) { NumberOrder(minI.value, k.i, c.iSize); }
        if Given(maxI) { NumberBelow(k.i, maxI.value, c.iSize); } else { assert hi == [255]; }
      }
    }
  }

  lemma BelowTop(id: Bytes, x: Bytes)
    requires x != []
    ensures Le([], id + [0] + x) && (Le(id + [0] + x, [255]) <==> id == [] || id[0] < 255) && id + [0] + x != [255]
  {
    var y, top: Bytes := id + [0] + x, [255];
    assert y[0] == (if id == [] then 0 else id[0]) && |y| > 1;
    assert Lt([], y) && top[1..] == [] && !Lt(y[1..], top[1..]);
  }

  /** With an id, excluding the lower bound drops the key there, but excluding the upper bound drops nothing. */
  lemma DsKeyRangeBounds(c: Conf, id: Id, minI: Option<nat>, maxI: Option<nat>, i: nat)
    requires Ok(c) && BoundOk(c, minI) && BoundOk(c, maxI) && i < Pow256(c.iSize) && NullFree(id.bytes)
    ensures Encode(c, DsKey(id, i)) == DsKeyRange(c, Some(id), minI, maxI).s <==> Given(minI) && i == minI.value
    ensures Encode(c, DsKey(id, i)) != DsKeyRange(c, Some(id), minI, maxI).e
  {
    var p, q := Prefix(c.name, 1), id.bytes + [0];
    var n := Number(i, c.iSize);
    var lo := if Given(minI) then Number(minI.value, c.iSize) else [];
    var hi := (if Given(maxI) then Number(maxI.value, c.iSize) else []) + [255];
    EqCancel(p, q + n, q + lo);
    EqCancel(q, n, lo);
    EqCancel(p, q + n, q + hi);
    EqCancel(q, n, hi);
    if Given(minI) && n == lo { NumberInjective(i, c.iSize, minI.value, c.iSize); }
    if Given(maxI) { NumberBelow(i, maxI.value, c.iSize); }
  }

  /**
   * A head range with an id selects exactly the heads of that id; without one, all heads of its tree,
   * as no text starts with 0xff. Its upper bound is never a key.
   */
  lemma HeadKeyRangeExact(c: Conf, id: Option<Id>, c': Conf, k: Key)
    requires Ok(c) && Ok(c') && Fits(c', k) && (id.Some? ==> NullFree(id.value.bytes))
    ensures InRange(HeadKeyRange(c, id), Encode(c', k)) <==>
            c'.name == c.name && k.HeadKey? && (id.Some? ==> k.id == id.value)
    ensures InRange(HeadKeyRange(c, id), Encode(c', k)) ==> Encode(c', k) != HeadKeyRange(c, id).e
  {
    hide CharLength;
    var P := Prefix(c.name, 3);
    if id.None? {
      OwnRange(c, 3, [], [255], c', k);
      if k.HeadKey? {
        BelowTop(k.id.bytes, [c'.vSize] + k.v.bytes);
        TextStart(k.id.bytes);
        EqCancel(P, Suffix(c', k), [255]);
      }
    } else {
      var q := id.value.bytes + [0];
      OwnRange(c, 3, q + [], q + [255], c', k);
      if k.HeadKey? {
        var x := [c'.vSize] + k.v.bytes;
        UnderId(id.value.bytes, [], [255], k.id.bytes, x);
        EqCancel(P, q + x, q + [255]);
        EqCancel(q, x, [255]);
      }
    }
  }

  lemma TextStart(b: Bytes)
    ensures Utf8(b) && b != [] ==> b[0] < 245
  {
  }

  /** A data key takes an id given as bytes as it is; one that starts with 0xff is not in the range of all data. */
  lemma HighIdsMissed(c: Conf, id: Id, i: nat)
    requires Ok(c) && Fits(c, DsKey(id, i)) && id.bytes != [] && id.bytes[0] == 255
    ensures !InRange(DsKeyRange(c, None, None, None), Encode(c, DsKey(id, i)))
  {
    DsKeyRangeExact(c, None, None, None, c, DsKey(id, i));
  }

  /** The version range selects exactly the version keys of its tree. */
  lemma VKeyRangeExact(c: Conf, c': Conf, k: Key)
    requires Ok(c) && Ok(c') && Fits(c', k) && (c'.name == c.name ==> c'.vSize == c.vSize)
    ensures InRange(VKeyRange(c), Encode(c', k)) <==> c'.name == c.name && k.VKey?
  {
    OwnRange(c, 4, [], [c.vSize + 1] + seq(c.vSize + 1, _ => 255), c', k);
  }

  /** Data keys of one id compare by insertion number. */
  lemma DsKeyOrder(c: Conf, id: Id, i: nat, j: nat)
    requires Ok(c) && i < Pow256(c.iSize) && j < Pow256(c.iSize) && NullFree(id.bytes)
    ensures Lt(Encode(c, DsKey(id, i)), Encode(c, DsKey(id, j))) <==> i < j
  {
    var p, q := Prefix(c.name, 1), id.bytes + [0];
    LtCancel(p, q + Number(i, c.iSize), q + Number(j, c.iSize));
    LtCancel(q, Number(i, c.iSize), Number(j, c.iSize));
    NumberOrder(i, j, c.iSize);
  }

  lemma IKeyOrder(c: Conf, i: nat, j: nat)
    requires Ok(c) && i < Pow256(c.iSize) && j < Pow256(c.iSize)
    ensures Lt(Encode(c, IKey(i)), Encode(c, IKey(j))) <==> i < j
  {
    LtCancel(Prefix(c.name, 2), Number(i, c.iSize), Number(j, c.iSize));
    NumberOrder(i, j, c.iSize);
  }

  /** Keys of different ids compare as the ids do, each ended by its null byte. */
  lemma IdOrder(c: Conf, k: Key, k': Key)
    requires Ok(c) && Fits(c, k) && Fits(c, k') && ((k.DsKey? && k'.DsKey?) || (k.HeadKey? && k'.HeadKey?)) && k.id != k'.id
    ensures Lt(Encode(c, k), Encode(c, k')) <==> Lt(k.id.bytes, k'.id.bytes)
  {
    var x := if k.DsKey? then Number(k.i, c.iSize) else [c.vSize] + k.v.bytes;
    var x' := if k'.DsKey? then Number(k'.i, c.iSize) else [c.vSize] + k'.v.bytes;
    LtCancel(Prefix(c.name, Tag(k)), k.id.bytes + [0] + x, k'.id.bytes + [0] + x');
    EndedOrder(k.id.bytes, x, k'.id.bytes, x');
  }

  lemma {:induction false} EndedOrder(a: Bytes, x: Bytes, b: Bytes, y: Bytes)
    requires NullFree(a) && NullFree(b) && a != b
    ensures Lt(a + [0] + x, b + [0] + y) <==> Lt(a, b)
    decreases |a|
  {
    if a != [] && b != [] && a[0] == b[0] {
      assert a == [a[0]] + a[1..] && b == [b[0]] + b[1..];
      EndedOrder(a[1..], x, b[1..], y);
      assert (a + [0] + x)[1..] == a[1..] + [0] + x && (b + [0] + y)[1..] == b[1..] + [0] + y;
    }
  }
}
