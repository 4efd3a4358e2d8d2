/** Composing and parsing keys by moving an offset over a buffer. */
module KeyBuffers {
  import opened Items
  import opened Bytes
  import opened Keys

  /** A fixed-size buffer filled from the left; `offset` is where the next piece goes. */
  class Buffer {
    const data: array<byte>
    var offset: nat

    ghost predicate Valid()
      reads this
    {
      offset <= data.Length
    }

    ghost function Written(): Bytes
      requires Valid()
      reads this, data
    {
      data[..offset]
    }

    constructor (size: nat)
      ensures Valid() && fresh(data) && data.Length == size && offset == 0 && Written() == []
    {
      data := new byte[size];
      offset := 0;
    }

    /** Copy `src` at the offset and move the offset past it. */
    method Put(src: Bytes)
      requires Valid() && offset + |src| <= data.Length
      modifies this`offset, data
      ensures Valid() && offset == old(offset) + |src| && Written() == old(Written()) + src
    {
      for k := 0 to |src|
        invariant offset == old(offset)
        invariant data[..offset + k] == old(Written()) + src[..k]
      {
        data[offset + k] := src[k];
        assert data[..offset + k + 1] == data[..offset + k] + [src[k]];
        assert src[..k + 1] == src[..k] + [src[k]];
      }
      assert src[..|src|] == src;
      offset := offset + |src|;
    }

    /** Write what both ends of a range start with. */
    method PutStart(prefix: Bytes, id: Option<Id>)
      requires Valid() && offset == 0 && |prefix| + (if id.Some? then |id.value.bytes| + 1 else 0) <= data.Length
      modifies this`offset, data
      ensures Valid() && Written() == (if id.Some? then prefix + id.value.bytes + [0] else prefix)
    {
      Put(prefix);
      assert Written() == prefix;
      if id.Some? {
        Put(id.value.bytes);
        Put([0]);
      }
    }

    /** Write a bound of a range, if there is one: its size, then the number. */
    method PutBound(c: Conf, i: Option<nat>)
      requires Valid() && Ok(c) && BoundOk(c, i) && offset + |Bound(c, i)| <= data.Length
      modifies this`offset, data
      ensures Valid() && offset == old(offset) + |Bound(c, i)| && Written() == old(Written()) + Bound(c, i)
    {
      hide WriteBE, Pow256;
      if Given(i) {
        Put([c.iSize]);
        Put(WriteBE(i.value, c.iSize));
      }
    }
  }

  ghost function Bound(c: Conf, i: Option<nat>): (r: Bytes)
    requires Ok(c) && BoundOk(c, i)
    ensures |r| == if Given(i) then 1 + c.iSize else 0
  {
    if Given(i) then Number(i.value, c.iSize) else []
  }

  /** Pieces put one after the other, regrouped as prefix and suffix. */
  lemma Regroup(p: Bytes, a: Bytes, n: Bytes, x: Bytes)
    ensures [] + p + n + x == p + (n + x)
    ensures [] + p + a + [0] + n + x == p + (a + [0] + (n + x))
    ensures [] + p + n + a + [0] == p + (n + a + [0])
  {
    assert [] + p + n + x == p + (n + x);
    assert [] + p + a + [0] + n + x == p + (a + [0] + (n + x));
    assert [] + p + n + a + [0] == p + (n + a + [0]);
  }

  method ComposeIKey(c: Conf, i: nat) returns (r: Bytes)
    requires Ok(c) && Fits(c, IKey(i))
    ensures r == Encode(c, IKey(i))
  {
    hide WriteBE, Pow256, NullFree;
    var prefix := Prefix(c.name, 2);
    var b := new Buffer(|prefix| + 1 + c.iSize);
    b.Put(prefix);
    b.Put([c.iSize]);
    b.Put(WriteBE(i, c.iSize));
    Regroup(prefix, [], [c.iSize], WriteBE(i, c.iSize));
    r := b.data[..b.offset];
  }

  method ComposeVKey(c: Conf, v: Version) returns (r: Bytes)
    requires Ok(c) && Fits(c, VKey(v))
    ensures r == Encode(c, VKey(v))
  {
    hide WriteBE, Pow256, NullFree;
    var prefix := Prefix(c.name, 4);
    var b := new Buffer(|prefix| + 1 + c.vSize);
    b.Put(prefix);
    b.Put([c.vSize]);
    b.Put(v.bytes);
    Regroup(prefix, [], [c.vSize], v.bytes);
    r := b.data[..b.offset];
  }

  method ComposeHeadKey(c: Conf, id: Id, v: Version) returns (r: Bytes)
    requires Ok(c) && Fits(c, HeadKey(id, v))
    ensures r == Encode(c, HeadKey(id, v))
  {
    hide WriteBE, Pow256, NullFree;
    var prefix := Prefix(c.name, 3);
    var b := new Buffer(|prefix| + |id.bytes| + 1 + 1 + c.vSize);
    b.Put(prefix);
    b.Put(id.bytes);
    b.Put([0]);
    b.Put([c.vSize]);
    b.Put(v.bytes);
    Regroup(prefix, id.bytes, [c.vSize], v.bytes);
    r := b.data[..b.offset];
  }

  method ComposeDsKey(c: Conf, id: Id, i: nat) returns (r: Bytes)
    requires Ok(c) && Fits(c, DsKey(id, i))
    ensures r == Encode(c, DsKey(id, i))
  {
    hide WriteBE, Pow256, NullFree;
    var prefix := Prefix(c.name, 1);
    var b := new Buffer(|prefix| + |id.bytes| + 1 + 1 + c.iSize);
    b.Put(prefix);
    b.Put(id.bytes);
    b.Put([0]);
    b.Put([c.iSize]);
    b.Put(WriteBE(i, c.iSize));
    Regroup(prefix, id.bytes, [c.iSize], WriteBE(i, c.iSize));
    r := b.data[..b.offset];
  }

  method ComposeUsKey(c: Conf, pe: Name) returns (r: Bytes)
    requires Ok(c) && Fits(c, UsKey(pe))
    ensures r == Encode(c, UsKey(pe))
  {
    hide WriteBE, Pow256, NullFree;
    var prefix := Prefix(c.name, 5);
    var b := new Buffer(|prefix| + 1 + |pe| + 1);
    b.Put(prefix);
    b.Put([|pe|]);
    b.Put(pe);
    b.Put([0]);
    Regroup(prefix, pe, [|pe|], []);
    r := b.data[..b.offset];
  }

  method ComposeHeadVal(c: Conf, conflict: bool, deleted: bool, i: nat) returns (r: Bytes)
    requires Ok(c) && i < Pow256(c.iSize)
    ensures r == HeadVal(c, conflict, deleted, i)
  {
    hide WriteBE, Pow256;
    var b := new Buffer(1 + 1 + c.iSize);
    var opts: byte := 0;
    if conflict { opts := opts + 1; }
    if deleted { opts := opts + 2; }
    b.Put([opts]);
    b.Put([c.iSize]);
    b.Put(WriteBE(i, c.iSize));
    Regroup([opts], [], [c.iSize], WriteBE(i, c.iSize));
    r := b.data[..b.offset];
  }

  // ---- parsing ----

  /** `Untyped` is what comes back for a buffer that ends right after the name. */
  datatype Parsed =
    | Malformed
    | Untyped(name: Bytes)
    | Typed(name: Bytes, key: Key, size: nat)
    | Us(name: Bytes, us: Bytes, i: nat)

  /** The position of the first null byte at or after `from`, or the length. */
  function FirstNull(b: Bytes, from: nat): (r: nat)
    requires from <= |b|
    ensures from <= r <= |b| && NullFree(b[from..r]) && (r < |b| ==> b[r] == 0)
    decreases |b| - from
  {
    if from == |b| || b[from] == 0 then from else
      var r := FirstNull(b, from + 1);
      assert b[from..r] == [b[from]] + b[from + 1..r];
      r
  }

  /** A size byte, then exactly that many bytes, then the end of the buffer. */
  predicate Sized(b: Bytes, at: nat) {
    at < |b| && b[at] > 0 && at + 1 + b[at] == |b|
  }

  function Parse(b: Bytes): Parsed {
    if b == [] then Malformed else
      var namelen: nat := b[0];
      if |b| < namelen + 2 || b[namelen + 1] != 0 then Malformed else
      var name, at := b[1..namelen + 1], namelen + 2;
      if at == |b| then Untyped(name)
      else ParseTyped(b, name, b[at], at + 1)
  }

  function ParseTyped(b: Bytes, name: Bytes, tag: byte, at: nat): Parsed
    requires at <= |b|
  {
    if tag == 1 || tag == 3 then
      var n := FirstNull(b, at);
      if n == |b| || !Sized(b, n + 1) then Malformed
      else if tag == 1 then Typed(name, DsKey(Id(b[at..n]), ReadBE(b[n + 2..])), b[n + 1])
      else Typed(name, HeadKey(Id(b[at..n]), Version(b[n + 2..])), b[n + 1])
    else if tag == 2 || tag == 4 then
      if !Sized(b, at) then Malformed
      else if tag == 2 then Typed(name, IKey(ReadBE(b[at + 1..])), b[at])
      else Typed(name, VKey(Version(b[at + 1..])), b[at])
    else if tag == 5 then
      if at == |b| || b[at] == 0 || at + 1 + b[at] >= |b| || b[at + 1 + b[at]] != 0 then Malformed
      else if !Sized(b, at + 2 + b[at]) then Malformed
      else Us(name, b[at + 1..at + 1 + b[at]], ReadBE(b[at + 3 + b[at]..]))
    else Malformed
  }

  /** Reads past the end of a buffer yield no value in the source; here the offset is checked instead. */
  method ParseKey(b: Bytes) returns (r: Parsed)
    ensures r == Parse(b)
  {
    hide ParseTyped;
    var offset := 0;
    if offset == |b| { return Malformed; }
    var namelen := b[offset];
    offset := offset + 1;
    if offset + namelen >= |b| { return Malformed; }
    var name := b[offset..offset + namelen];
    offset := offset + namelen;
    if b[offset] != 0 { return Malformed; }
    offset := offset + 1;
    if offset == |b| { return Untyped(name); }
    var tag := b[offset];
    offset := offset + 1;
    r := ParseFields(b, name, tag, offset);
  }

  /** The fields of a typed key, from the offset on. */
  method ParseFields(b: Bytes, name: Bytes, tag: byte, from: nat) returns (r: Parsed)
    requires from <= |b|
    ensures r == ParseTyped(b, name, tag, from)
  {
    hide ReadBE, NullFree;
    if tag == 0 || tag > 5 { return Malformed; }
    var offset := from;
    if tag == 1 || tag == 3 {
      var idend := offset;
      while idend < |b| && b[idend] != 0
        invariant offset <= idend <= |b|
        invariant FirstNull(b, offset) == FirstNull(b, idend)
      {
        idend := idend + 1;
      }
      if idend == |b| { return Malformed; }
      var id := Id(b[offset..idend]);
      offset := idend + 1;
      if offset == |b| || b[offset] == 0 { return Malformed; }
      var nlen := b[offset];
      offset := offset + 1;
      if offset + nlen != |b| { return Malformed; }
      r := Typed(name, if tag == 1 then DsKey(id, ReadBE(b[offset..])) else HeadKey(id, Version(b[offset..])), nlen);
    } else if tag == 2 || tag == 4 {
      if offset == |b| || b[offset] == 0 { return Malformed; }
      var nlen := b[offset];
      offset := offset + 1;
      if offset + nlen != |b| { return Malformed; }
      r := Typed(name, if tag == 2 then IKey(ReadBE(b[offset..])) else VKey(Version(b[offset..])), nlen);
    } else {
      if offset == |b| || b[offset] == 0 { return Malformed; }
      var ulen := b[offset];
      offset := offset + 1;
      if offset + ulen >= |b| || b[offset + ulen] != 0 { return Malformed; }
      var us := b[offset..offset + ulen];
      offset := offset + ulen + 1;
      if offset == |b| || b[offset] == 0 { return Malformed; }
      var nlen := b[offset];
      offset := offset + 1;
      if offset + nlen != |b| { return Malformed; }
      r := Us(name, us, ReadBE(b[offset..]));
    }
  }

  lemma {:induction false} FirstNullIs(b: Bytes, from: nat, n: nat)
    requires from <= n < |b| && b[n] == 0 && forall k :: from <= k < n ==> b[k] != 0
    ensures FirstNull(b, from) == n
    decreases n - from
  {
    if from < n {
      FirstNullIs(b, from + 1, n);
    }
  }

  /** Where the parts of a key are. */
  lemma Layout(name: Bytes, tag: byte, s: Bytes)
    requires |name| <= 254
    ensures var b := Prefix(name, tag) + s;
      |b| == |name| + 3 + |s| && b[0] == |name| && b[1..|name| + 1] == name && b[|name| + 1] == 0
      && b[|name| + 2] == tag && b[|name| + 3..] == s
      && Parse(b) == ParseTyped(b, name, tag, |name| + 3)
  {
    hide ParseTyped;
  }

  lemma SizedTail(b: Bytes, at: nat, n: byte, x: Bytes)
    requires at <= |b| && b[at..] == [n] + x && n > 0 && |x| == n
    ensures Sized(b, at) && b[at] == n && b[at + 1..] == x
  {
    assert b[at..][0] == n && b[at..][1..] == x;
  }

  /** Parsing undoes every composition except that of a user-store key. */
  lemma ParseEncode(c: Conf, k: Key)
    requires Ok(c) && Fits(c, k) && !k.UsKey?
    ensures Parse(Encode(c, k)) == Typed(c.name, k, if k.DsKey? || k.IKey? then c.iSize else c.vSize)
  {
    hide Parse, ParseTyped, NullFree, WriteBE, ReadBE, Pow256, Prefix;
    var b := Encode(c, k);
    var at := |c.name| + 3;
    Layout(c.name, Tag(k), Suffix(c, k));
    match k
    case DsKey(id, i) =>
      ParseWithId(b, c.name, 1, at, id.bytes, c.iSize, WriteBE(i, c.iSize));
      ReadWrite(i, c.iSize);
    case IKey(i) =>
      ParseWithoutId(b, c.name, 2, at, c.iSize, WriteBE(i, c.iSize));
      ReadWrite(i, c.iSize);
    case HeadKey(id, v) =>
      ParseWithId(b, c.name, 3, at, id.bytes, c.vSize, v.bytes);
    case VKey(v) =>
      ParseWithoutId(b, c.name, 4, at, c.vSize, v.bytes);
  }

  lemma ParseWithId(b: Bytes, name: Bytes, tag: byte, at: nat, id: Bytes, n: byte, x: Bytes)
    requires (tag == 1 || tag == 3) && at <= |b| && b[at..] == id + [0] + ([n] + x)
    requires NullFree(id) && n > 0 && |x| == n
    ensures ParseTyped(b, name, tag, at)
            == Typed(name, if tag == 1 then DsKey(Id(id), ReadBE(x)) else HeadKey(Id(id), Version(x)), n)
  {
    hide FirstNull, NullFree, ReadBE;
    SkipId(b, at, id, [n] + x);
    SizedTail(b, at + |id| + 1, n, x);
  }

  lemma ParseWithoutId(b: Bytes, name: Bytes, tag: byte, at: nat, n: byte, x: Bytes)
    requires (tag == 2 || tag == 4) && at <= |b| && b[at..] == [n] + x && n > 0 && |x| == n
    ensures ParseTyped(b, name, tag, at) == Typed(name, if tag == 2 then IKey(ReadBE(x)) else VKey(Version(x)), n)
  {
    SizedTail(b, at, n, x);
  }

  lemma SkipId(b: Bytes, at: nat, id: Bytes, x: Bytes)
    requires at <= |b| && b[at..] == id + [0] + x && NullFree(id)
    ensures FirstNull(b, at) == at + |id| && b[at..at + |id|] == id
    ensures |b| == at + |id| + 1 + |x| && b[at + |id| + 1..] == x
  {
    var y := id + [0] + x;
    assert forall j :: 0 <= j < |y| ==> b[at + j] == y[j];
    FirstNullIs(b, at, at + |id|);
  }

  /** Whatever parses as a typed key is the composition of what was parsed; of a head key, if its id is text. */
  lemma EncodeParse(b: Bytes)
    requires Parse(b).Typed? && b[0] < 255 && Parse(b).size < 255
    ensures var r := Parse(b);
      var c := Conf(r.name, r.size, r.size);
      Ok(c) && (Fits(c, r.key) <==> (r.key.HeadKey? ==> Utf8(r.key.id.bytes))) && (Fits(c, r.key) ==> b == Encode(c, r.key))
  {
    hide FirstNull, WriteBE, ReadBE, NullFree, Utf8;
    var r := Parse(b);
    var at := |r.name| + 3;
    assert b == Prefix(r.name, b[at - 1]) + b[at..];
    TypedSuffix(b, r.name, b[at - 1], at);
  }

  lemma TypedSuffix(b: Bytes, name: Bytes, tag: byte, at: nat)
    requires at <= |b| && |name| <= 254 && ParseTyped(b, name, tag, at).Typed? && ParseTyped(b, name, tag, at).size < 255
    ensures var r := ParseTyped(b, name, tag, at);
      var c := Conf(name, r.size, r.size);
      && r.name == name && Tag(r.key) == tag && Ok(c)
      && (Fits(c, r.key) <==> (r.key.HeadKey? ==> Utf8(r.key.id.bytes)))
      && (Fits(c, r.key) ==> b[at..] == Suffix(c, r.key))
  {
    hide FirstNull, WriteBE, NullFree, Utf8;
    if tag == 1 || tag == 3 {
      var n := FirstNull(b, at);
      WriteRead(b[n + 2..]);
      SplitId(b, at, n);
    } else {
      WriteRead(b[at + 1..]);
      assert b[at..] == [b[at]] + b[at + 1..];
    }
  }

  lemma SplitId(b: Bytes, at: nat, n: nat)
    requires at <= n && n + 1 < |b| && b[n] == 0
    ensures b[at..] == b[at..n] + [0] + ([b[n + 1]] + b[n + 2..])
  {
  }

  /** A composed user-store key never parses: the insertion number the parser expects was not written. */
  lemma UsKeyMalformed(c: Conf, pe: Name)
    requires Ok(c) && Fits(c, UsKey(pe))
    ensures Parse(Encode(c, UsKey(pe))) == Malformed
  {
    var b := Encode(c, UsKey(pe));
    var at := |c.name| + 3;
    var s := Suffix(c, UsKey(pe));
    assert b[0] == |c.name| && b[at - 2] == 0 && b[at - 1] == 5;
    assert forall j :: 0 <= j < |s| ==> b[at + j] == s[j];
  }

  function ParseHeadVal(b: Bytes): Option<(bool, bool, nat)> {
    if !Sized(b, 1) then None
    else Some((b[0] % 2 == 1, b[0] / 2 % 2 == 1, ReadBE(b[2..])))
  }

  lemma HeadValRoundTrip(c: Conf, conflict: bool, deleted: bool, i: nat)
    requires Ok(c) && i < Pow256(c.iSize)
    ensures ParseHeadVal(HeadVal(c, conflict, deleted, i)) == Some((conflict, deleted, i))
  {
    var b := HeadVal(c, conflict, deleted, i);
    assert b[2..] == WriteBE(i, c.iSize);
    ReadWrite(i, c.iSize);
  }

  // ---- the next key ----

  /** All bytes are `b`. */
  ghost predicate All(s: Bytes, b: byte) {
    forall k :: 0 <= k < |s| ==> s[k] == b
  }

  /** `e` is `s` with one more at `i`, where only 0xff follows in `s` and only zeros follow in `e`. */
  ghost predicate Bumped(s: Bytes, e: Bytes, i: nat) {
    && i < |s| == |e| && s[..i] == e[..i] && s[i] < 255 && e[i] == s[i] + 1
    && All(s[i + 1..], 255) && All(e[i + 1..], 0)
  }

  /** The key plus one as a number of the same width; fails only when every byte is 0xff. */
  method IncrementKey(key: Bytes) returns (r: Option<Bytes>)
    ensures key != [] ==> (r.None? <==> ReadBE(key) + 1 == Pow256(|key|))
    ensures key == [] ==> r == Some([])
    ensures r.Some? && key != [] ==> |r.value| == |key| && ReadBE(r.value) == ReadBE(key) + 1
    ensures r.Some? && key != [] ==> exists i: nat :: Bumped(key, r.value, i)
    ensures r.None? ==> All(key, 255)
  {
    hide ReadBE, Pow256;
    var b := new Buffer(|key|);
    b.Put(key);
    var nkey := b.data;
    var len := |key|;
    assert nkey[..len] == key[..len] by { assert nkey[..len] == [] + key == key[..len]; }
    while len > 0
      invariant 0 <= len <= |key| == nkey.Length && (key != [] ==> len > 0)
      invariant nkey[..len] == key[..len]
      invariant forall k :: len <= k < |key| ==> key[k] == 255 && nkey[k] == 0
    {
      len := len - 1;
      assert key[..len + 1] == key[..len] + [key[len]];
      if nkey[len] == 255 {
        nkey[len] := 0;
        if len == 0 {
          Overflows(key);
          return None;
        }
        assert nkey[..len] == key[..len];
      } else {
        nkey[len] := nkey[len] + 1;
        Incremented(key, nkey[..], len);
        assert Bumped(key, nkey[..], len);
        return Some(nkey[..]);
      }
    }
    return Some([]);
  }

  lemma Scale(a: nat, p: nat)
    ensures a * (256 * p) == (a * p) * 256 && (a * p - 1) * 256 + 255 == a * (256 * p) - 1
  {
  }

  lemma Powers(n: nat)
    ensures Pow256(0) == 1 && (n > 0 ==> Pow256(n) == 256 * Pow256(n - 1))
  {
  }

  lemma ReadLast(key: Bytes)
    requires key != []
    ensures ReadBE(key) == ReadBE(key[..|key| - 1]) * 256 + key[|key| - 1]
  {
  }

  /** What trailing 0xff bytes and trailing zeros contribute. */
  lemma {:induction false} Carry(key: Bytes, len: nat)
    requires len < |key| && forall k :: len < k < |key| ==> key[k] == 255
    ensures ReadBE(key) == (ReadBE(key[..len + 1]) + 1) * Pow256(|key| - len - 1) - 1
    decreases |key|
  {
    hide ReadBE, Pow256;
    var n := |key| - 1;
    Powers(|key| - len - 1);
    if len == n {
      assert key[..len + 1] == key;
    } else {
      Carry(key[..n], len);
      ReadLast(key);
      assert key[..n][..len + 1] == key[..len + 1];
      Scale(ReadBE(key[..len + 1]) + 1, Pow256(n - len - 1));
    }
  }

  lemma {:induction false} Cleared(nkey: Bytes, len: nat)
    requires len < |nkey| && forall k :: len < k < |nkey| ==> nkey[k] == 0
    ensures ReadBE(nkey) == ReadBE(nkey[..len + 1]) * Pow256(|nkey| - len - 1)
    decreases |nkey|
  {
    hide ReadBE, Pow256;
    var n := |nkey| - 1;
    Powers(|nkey| - len - 1);
    if len == n {
      assert nkey[..len + 1] == nkey;
    } else {
      Cleared(nkey[..n], len);
      ReadLast(nkey);
      assert nkey[..n][..len + 1] == nkey[..len + 1];
      Scale(ReadBE(nkey[..len + 1]), Pow256(n - len - 1));
    }
  }

  lemma Overflows(key: Bytes)
    requires key != [] && All(key, 255)
    ensures ReadBE(key) + 1 == Pow256(|key|)
  {
    hide ReadBE, Pow256;
    Carry(key, 0);
    ReadLast(key[..1]);
    ReadNone();
    assert key[..1][..0] == [];
    Powers(|key|);
  }

  lemma ReadNone()
    ensures ReadBE([]) == 0
  {
  }

  lemma Incremented(key: Bytes, nkey: Bytes, len: nat)
    requires len < |key| == |nkey| && key[len] < 255 && nkey[len] == key[len] + 1 && nkey[..len] == key[..len]
    requires forall k :: len < k < |key| ==> key[k] == 255 && nkey[k] == 0
    ensures ReadBE(nkey) == ReadBE(key) + 1 && ReadBE(key) + 1 < Pow256(|key|)
  {
    hide ReadBE, Pow256;
    Carry(key, len);
    Cleared(nkey, len);
    ReadLast(key[..len + 1]);
    ReadLast(nkey[..len + 1]);
    assert key[..len + 1][..len] == key[..len] && nkey[..len + 1][..len] == nkey[..len];
    assert ReadBE(nkey[..len + 1]) == ReadBE(key[..len + 1]) + 1;
    assert ReadBE(nkey) < Pow256(|nkey|);
  }

  // ---- ranges ----

  method GetIKeyRange(c: Conf, minI: Option<nat>, maxI: Option<nat>) returns (r: Range)
    requires Ok(c) && BoundOk(c, minI) && BoundOk(c, maxI)
    ensures r == IKeyRange(c, minI, maxI)
  {
    hide Number, Pow256;
    var prefix := Prefix(c.name, 2);
    var slen, elen := |prefix|, |prefix|;
    if Given(minI) { slen := slen + 1 + c.iSize; }
    if Given(maxI) { elen := elen + 1 + c.iSize; } else { elen := elen + 1; }
    var s := new Buffer(slen);
    var e := new Buffer(elen);
    s.Put(prefix);
    e.Put(s.data[..s.offset]);
    s.PutBound(c, minI);
    e.PutBound(c, maxI);
    if !Given(maxI) {
      e.Put([255]);
    }
    Plain(prefix, Bound(c, minI));
    Plain(prefix, Bound(c, maxI));
    r := Range(s.data[..s.offset], e.data[..e.offset]);
  }

  method GetVKeyRange(c: Conf) returns (r: Range)
    requires Ok(c)
    ensures r == VKeyRange(c)
  {
    var prefix := Prefix(c.name, 4);
    var s := new Buffer(|prefix|);
    var e := new Buffer(|prefix| + 1 + c.vSize + 1);
    s.Put(prefix);
    e.Put(prefix);
    e.Put([c.vSize + 1]);
    e.Put(seq(c.vSize + 1, _ => 255));
    Regroup(prefix, [], [c.vSize + 1], seq(c.vSize + 1, _ => 255));
    assert [] + prefix == prefix == prefix + [];
    r := Range(s.data[..s.offset], e.data[..e.offset]);
  }

  method GetHeadKeyRange(c: Conf, id: Option<Id>) returns (r: Range)
    requires Ok(c)
    ensures r == HeadKeyRange(c, id)
  {
    hide Prefix;
    var prefix := Prefix(c.name, 3);
    var len := |prefix|;
    if id.Some? { len := len + |id.value.bytes| + 1; }
    var s := new Buffer(len);
    var e := new Buffer(len + 1);
    s.Put(prefix);
    if id.Some? {
      s.Put(id.value.bytes);
      s.Put([0]);
      HeadEnds(prefix, id.value.bytes);
    }
    e.Put(s.data[..s.offset]);
    e.Put([255]);
    assert [] + prefix == prefix && prefix + [] == prefix;
    r := Range(s.data[..s.offset], e.data[..e.offset]);
  }

  lemma HeadEnds(p: Bytes, id: Bytes)
    ensures [] + p + id + [0] == p + (id + [0] + [])
    ensures [] + ([] + p + id + [0]) + [255] == p + (id + [0] + [255])
  {
    assert [] + p + id + [0] == p + (id + [0] + []);
    assert [] + ([] + p + id + [0]) + [255] == p + (id + [0] + [255]);
  }

  method GetDsKeyRange(c: Conf, id: Option<Id>, minI: Option<nat>, maxI: Option<nat>) returns (r: Range)
    requires Ok(c) && BoundOk(c, minI) && BoundOk(c, maxI)
    ensures r == DsKeyRange(c, id, minI, maxI)
  {
    hide Number, Pow256, Prefix, DsKeyRange, Bound;
    DsRangePieces(c, id, minI, maxI);
    var prefix := Prefix(c.name, 1);
    var slen, elen := |prefix|, |prefix|;
    if id.Some? {
      slen, elen := slen + |id.value.bytes| + 1, elen + |id.value.bytes| + 1;
      if Given(minI) { slen := slen + 1 + c.iSize; }
      if Given(maxI) { elen := elen + 1 + c.iSize; }
    }
    var s := new Buffer(slen);
    s.PutStart(prefix, id);
    var start := s.data[..s.offset];
    if id.Some? {
      s.PutBound(c, minI);
    }
    var lo := s.data[..s.offset];
    var e := new Buffer(elen + 1);
    e.Put(start);
    if id.Some? {
      e.PutBound(c, maxI);
    }
    e.Put([255]);
    assert [] + start == start;
    r := Range(lo, e.data[..e.offset]);
  }

  lemma Plain(p: Bytes, bound: Bytes)
    ensures [] + p + bound == p + bound && [] + ([] + p) + bound == p + bound
    ensures bound == [] ==> [] + ([] + p) + bound + [255] == p + [255]
  {
    assert [] + p + bound == p + bound && [] + ([] + p) + bound == p + bound;
  }

  lemma DsRangePieces(c: Conf, id: Option<Id>, minI: Option<nat>, maxI: Option<nat>)
    requires Ok(c) && BoundOk(c, minI) && BoundOk(c, maxI)
    ensures var p := Prefix(c.name, 1);
      DsKeyRange(c, id, minI, maxI) == match id
        case None => Range(p, p + [255])
        case Some(id) => Range(p + id.bytes + [0] + Bound(c, minI), p + id.bytes + [0] + Bound(c, maxI) + [255])
  {
    var p := Prefix(c.name, 1);
    match id
    case None => assert p + [] == p;
    case Some(id) =>
      assert p + id.bytes + [0] + Bound(c, minI) == p + (id.bytes + [0] + Bound(c, minI));
      assert p + id.bytes + [0] + Bound(c, maxI) + [255] == p + (id.bytes + [0] + (Bound(c, maxI) + [255]));
  }
}
