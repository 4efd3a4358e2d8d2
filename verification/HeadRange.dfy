/** Which head keys the range of a prefix selects. */
module HeadRange {
  import opened Items
  import opened Bytes
  import opened Keys
  import opened KeyBuffers

  /** Whether a byte string lies between the two ends, the upper one excluded. */
  predicate Selects(r: Range, b: Bytes) {
    Le(r.s, b) && Lt(b, r.e)
  }

  // ---- any byte strings ----

  /** A short string past the increment: a piece of `e` that includes the raised byte. */
  ghost predicate Short(e: Bytes, i: nat, x: Bytes) {
    i < |x| < |e| && x == e[..|x|]
  }

  lemma BumpedAt(s: Bytes, e: Bytes, i: nat)
    requires Bumped(s, e, i)
    ensures forall j :: 0 <= j < i ==> s[j] == e[j]
    ensures forall j :: i < j < |s| ==> s[j] == 255 && e[j] == 0
  {
    assert forall j :: 0 <= j < i ==> s[j] == s[..i][j] == e[..i][j];
    assert forall j :: i < j < |s| ==> s[j] == s[i + 1..][j - i - 1] && e[j] == e[i + 1..][j - i - 1];
  }

  lemma {:induction false} AtLeastAll(s: Bytes, x: Bytes)
    requires All(s, 255)
    ensures Le(s, x) <==> s <= x
    decreases |s|
  {
    if s == [] {
    } else if x != [] {
      AtLeastAll(s[1..], x[1..]);
      assert s == [s[0]] + s[1..] && x == [x[0]] + x[1..];
    }
  }

  lemma {:induction false} BelowZeros(e: Bytes, x: Bytes)
    requires All(e, 0)
    ensures Lt(x, e) <==> |x| < |e| && x == e[..|x|]
    decreases |e|
  {
    if e != [] && x != [] {
      BelowZeros(e[1..], x[1..]);
      assert x == [x[0]] + x[1..];
      assert |x| < |e| ==> e[..|x|] == [e[0]] + e[1..][..|x| - 1];
    }
  }

  /** Between a string and its increment lie the strings it is a prefix of, and the short ones. */
  lemma {:induction false} RangeShape(s: Bytes, e: Bytes, i: nat, x: Bytes)
    requires Bumped(s, e, i)
    ensures Selects(Range(s, e), x) <==> s <= x || Short(e, i, x)
    decreases i
  {
    if x != [] {
      FirstByte(s, e, i, x);
      if i == 0 {
        AtLeastAll(s[1..], x[1..]);
        BelowZeros(e[1..], x[1..]);
      } else {
        RangeShape(s[1..], e[1..], i - 1, x[1..]);
      }
    }
  }

  lemma FirstByte(s: Bytes, e: Bytes, i: nat, x: Bytes)
    requires Bumped(s, e, i) && x != []
    ensures s <= x <==> s[0] == x[0] && s[1..] <= x[1..]
    ensures i > 0 ==> s[0] == e[0] && Bumped(s[1..], e[1..], i - 1)
    ensures i > 0 ==> (Short(e, i, x) <==> x[0] == e[0] && Short(e[1..], i - 1, x[1..]))
    ensures i == 0 ==> (Short(e, i, x) <==> x[0] == e[0] && |x| < |e| && x[1..] == e[1..][..|x| - 1])
    ensures s == x <==> s[0] == x[0] && s[1..] == x[1..]
  {
    assert s == [s[0]] + s[1..] && e == [e[0]] + e[1..] && x == [x[0]] + x[1..];
    assert |x| < |e| ==> e[..|x|] == [e[0]] + e[1..][..|x| - 1];
    if i > 0 {
      assert s[1..][..i - 1] == s[..i][1..] && e[1..][..i - 1] == e[..i][1..];
      assert s[1..][i..] == s[i + 1..] && e[1..][i..] == e[i + 1..];
    }
  }

  // ---- head keys ----

  /** The key is a head key of the tree whose id, or whole suffix, starts with the prefix. */
  ghost predicate Meant(c: Conf, prefix: Bytes, c': Conf, k: Key)
    requires Ok(c') && Fits(c', k)
  {
    c'.name == c.name && k.HeadKey? && prefix <= Suffix(c', k)
  }

  /** The upper end of the range, behind the part all head keys of the tree share. */
  lemma UpperEnd(c: Conf, prefix: Bytes, e: Bytes, i: nat, c': Conf, k: Key)
    requires Ok(c) && Ok(c') && Fits(c', k) && (c'.name == c.name ==> c'.vSize == c.vSize)
    requires Bumped(Prefix(c.name, 3) + prefix, e, i) && Short(e, i, Encode(c', k))
    ensures var p := |Prefix(c.name, 3)|;
      && i >= p && Bumped(prefix, e[p..], i - p)
      && c'.name == c.name && k.HeadKey? && Short(e[p..], i - p, Suffix(c', k))
  {
    var P, x, y := Prefix(c.name, 3), Encode(c', k), Suffix(c', k);
    var s, p := P + prefix, |P|;
    BumpedAt(s, e, i);
    assert s[p - 1] == 3;
    if i < p {
      LastOfPrefix(c, s, e, i, c', k);
    } else {
      assert s[..p] == e[..p] by { assert s[..i][..p] == s[..p] && e[..i][..p] == e[..p]; }
      assert P <= x;
      PrefixOwner(c.name, 3, c'.name, Tag(k), y);
      assert x == P + y;
      assert y == e[p..][..|y|];
      assert prefix[..i - p] == e[p..][..i - p] by { assert s[..i][p..] == e[..i][p..]; }
      assert prefix[i - p + 1..] == s[i + 1..] && e[p..][i - p + 1..] == e[i + 1..];
    }
  }

  /** When even the type byte is raised, no key of the tree is short. */
  lemma LastOfPrefix(c: Conf, s: Bytes, e: Bytes, i: nat, c': Conf, k: Key)
    requires Ok(c) && Ok(c') && Fits(c', k) && (c'.name == c.name ==> c'.vSize == c.vSize)
    requires Bumped(s, e, i) && Prefix(c.name, 3) <= s && i == |Prefix(c.name, 3)| - 1
    ensures !Short(e, i, Encode(c', k))
  {
    var x, y := Encode(c', k), Suffix(c', k);
    BumpedAt(s, e, i);
    assert c'.name == c.name && k.VKey? ==> y[0] == c.vSize;
    if Short(e, i, x) {
      var Q := Prefix(c.name, 4);
      assert e[..i + 1] == Q by {
        assert e[..i + 1] == e[..i] + [e[i]] && s[..i] == Prefix(c.name, 3)[..i];
      }
      assert Q == x[..i + 1] by { assert x[..i + 1] == e[..i + 1]; }
      assert Q <= x;
      PrefixOwner(c.name, 4, c'.name, Tag(k), y);
    }
  }

  /**
   * The prefix runs past an id, and past every version of that id, up to the end of the versions
   * with its last bytes: then the next head of the id comes before the increment.
   */
  ghost predicate RunsPast(c: Conf, prefix: Bytes, n: nat) {
    && n + 2 + c.vSize < |prefix| && TextId(prefix[..n]) && prefix[n] == 0
    && Full(prefix, n + 2 + c.vSize, |prefix|)
    && prefix[n + 1] == c.vSize - if Full(prefix, n + 2, n + 2 + c.vSize) then 1 else 0
  }

  /** The bytes from `a` up to `b` are all 0xff. */
  ghost predicate Full(s: Bytes, a: nat, b: nat)
    requires b <= |s|
  {
    forall j :: a <= j < b ==> s[j] == 255
  }

  lemma IdFree(id: Bytes)
    ensures NullFree(id) <==> forall j :: 0 <= j < |id| ==> id[j] != 0
  {
  }

  /** A short head key means that the prefix runs past its id. */
  lemma ShortRunsPast(c: Conf, prefix: Bytes, e: Bytes, i: nat, id: Id, v: Version)
    requires Ok(c) && Fits(c, HeadKey(id, v)) && Bumped(prefix, e, i) && Short(e, i, Suffix(c, HeadKey(id, v)))
    ensures RunsPast(c, prefix, |id.bytes|)
  {
    hide NullFree, Pow256;
    IdFree(id.bytes);
    var n, y := |id.bytes|, Suffix(c, HeadKey(id, v));
    var m := n + 2 + c.vSize;
    assert |y| == m && y[..n] == id.bytes && y[n] == 0 && y[n + 1] == c.vSize && y[n + 2..] == v.bytes;
    assert forall j :: 0 <= j < m ==> y[j] == e[j];
    BumpedAt(prefix, e, i);
    assert i > n;
    assert prefix[..n] == id.bytes;
  }

  /** And if it does, there is one. */
  lemma RunsPastShort(c: Conf, prefix: Bytes, e: Bytes, i: nat, n: nat) returns (k: Key)
    requires Ok(c) && RunsPast(c, prefix, n) && Bumped(prefix, e, i)
    ensures k.HeadKey? && k.id.bytes == prefix[..n] && Fits(c, k) && Short(e, i, Suffix(c, k)) && !(prefix <= Suffix(c, k))
  {
    var m := n + 2 + c.vSize;
    BumpedAt(prefix, e, i);
    if !Full(prefix, n + 2, m) {
      var j :| n + 2 <= j < m && prefix[j] != 255;
    }
    assert n < i < m;
    k := HeadKey(Id(prefix[..n]), Version(e[n + 2..m]));
    var y := Suffix(c, k);
    assert e[n] == 0 && e[n + 1] == c.vSize;
    assert y == e[..m];
  }

  /**
   * The range of a prefix selects exactly the head keys of the tree that start with it, unless the
   * prefix runs past an id.
   */
  lemma HeadPrefixRange(c: Conf, prefix: Bytes, r: Range)
    requires Ok(c) && r.s == Prefix(c.name, 3) + prefix && exists i: nat :: Bumped(r.s, r.e, i)
    ensures (forall c', k | Ok(c') && Fits(c', k) && (c'.name == c.name ==> c'.vSize == c.vSize) ::
               Selects(r, Encode(c', k)) <==> Meant(c, prefix, c', k))
            <==> forall n :: !RunsPast(c, prefix, n)
  {
    hide RunsPast, Meant, Selects, Prefix, Suffix, Fits;
    var i: nat :| Bumped(r.s, r.e, i);
    var P := Prefix(c.name, 3);
    var p := |P|;
    forall c', k | Ok(c') && Fits(c', k) && (c'.name == c.name ==> c'.vSize == c.vSize)
      ensures Meant(c, prefix, c', k) ==> Selects(r, Encode(c', k))
      ensures Selects(r, Encode(c', k)) && !Meant(c, prefix, c', k) ==>
                k.HeadKey? && RunsPast(c, prefix, |k.id.bytes|)
    {
      OneKey(c, prefix, r, i, c', k);
    }
    if n :| RunsPast(c, prefix, n) {
      BumpedBehind(c, prefix, r, i, n);
      var k := RunsPastShort(c, prefix, r.e[p..], i - p, n);
      Whole(P, r.e, i, Suffix(c, k));
      RangeShape(r.s, r.e, i, Encode(c, k));
      NotMeant(c, prefix, k);
    }
  }

  lemma StartsLike(c: Conf, prefix: Bytes, c': Conf, k: Key)
    requires Ok(c) && Ok(c') && Fits(c', k) && (c'.name == c.name ==> c'.vSize == c.vSize) && Prefix(c.name, 3) + prefix <= Encode(c', k)
    ensures c'.name == c.name && k.HeadKey? && prefix <= Suffix(c', k)
  {
    var P, K, y := Prefix(c.name, 3), Encode(c', k), Suffix(c', k);
    assert P <= K by { assert (P + prefix)[..|P|] == P && K[..|P + prefix|] == P + prefix; }
    PrefixOwner(c.name, 3, c'.name, Tag(k), y);
    assert prefix <= y by { assert K == P + y && K[|P|..|P + prefix|] == prefix; }
  }

  lemma OneKey(c: Conf, prefix: Bytes, r: Range, i: nat, c': Conf, k: Key)
    requires Ok(c) && r.s == Prefix(c.name, 3) + prefix && Bumped(r.s, r.e, i)
    requires Ok(c') && Fits(c', k) && (c'.name == c.name ==> c'.vSize == c.vSize)
    ensures Meant(c, prefix, c', k) ==> Selects(r, Encode(c', k))
    ensures Selects(r, Encode(c', k)) && !Meant(c, prefix, c', k) ==>
              k.HeadKey? && RunsPast(c, prefix, |k.id.bytes|)
  {
    var P, K, y := Prefix(c.name, 3), Encode(c', k), Suffix(c', k);
    RangeShape(r.s, r.e, i, K);
    if r.s <= K {
      StartsLike(c, prefix, c', k);
    } else if Selects(r, K) {
      UpperEnd(c, prefix, r.e, i, c', k);
      assert c' == Conf(c.name, c'.iSize, c.vSize);
      assert Suffix(c', k) == Suffix(c, k);
      ShortRunsPast(c, prefix, r.e[|P|..], i - |P|, k.id, k.v);
    }
    if Meant(c, prefix, c', k) {
      assert K == P + y && y[..|prefix|] == prefix;
    }
  }

  /** A prefix that runs past an id is not all 0xff, so the raised byte lies in it. */
  lemma BumpedBehind(c: Conf, prefix: Bytes, r: Range, i: nat, n: nat)
    requires Ok(c) && r.s == Prefix(c.name, 3) + prefix && Bumped(r.s, r.e, i) && RunsPast(c, prefix, n)
    ensures i >= |Prefix(c.name, 3)| && Bumped(prefix, r.e[|Prefix(c.name, 3)|..], i - |Prefix(c.name, 3)|)
    ensures r.e[..|Prefix(c.name, 3)|] == Prefix(c.name, 3)
  {
    var p := |Prefix(c.name, 3)|;
    BumpedAt(r.s, r.e, i);
    assert r.s[p + n] == 0;
    var e := r.e[p..];
    assert prefix[..i - p] == r.s[..i][p..] == r.e[..i][p..] == e[..i - p];
    assert prefix[i - p + 1..] == r.s[i + 1..] && e[i - p + 1..] == r.e[i + 1..];
  }

  /** What is short behind a common part is short with it. */
  lemma Whole(P: Bytes, e: Bytes, i: nat, y: Bytes)
    requires |P| <= i < |e| && e[..|P|] == P && Short(e[|P|..], i - |P|, y)
    ensures Short(e, i, P + y)
  {
    assert e == P + e[|P|..];
  }

  lemma NotMeant(c: Conf, prefix: Bytes, k: Key)
    requires Ok(c) && Fits(c, k) && k.HeadKey? && !(prefix <= Suffix(c, k))
    ensures !Meant(c, prefix, c, k)
  {
  }

  /** A prefix of ids never runs past one: its range is exact, and selects by id. */
  lemma IdPrefixRange(c: Conf, prefix: Bytes, r: Range, c': Conf, k: Key)
    requires Ok(c) && r.s == Prefix(c.name, 3) + prefix && exists i: nat :: Bumped(r.s, r.e, i)
    requires NullFree(prefix) && Ok(c') && Fits(c', k) && (c'.name == c.name ==> c'.vSize == c.vSize)
    ensures Selects(r, Encode(c', k)) <==> c'.name == c.name && k.HeadKey? && prefix <= k.id.bytes
  {
    HeadPrefixRange(c, prefix, r);
    if k.HeadKey? {
      var y := Suffix(c', k);
      assert y[|k.id.bytes|] == 0 && y[..|k.id.bytes|] == k.id.bytes;
      if prefix <= y {
        assert |prefix| <= |k.id.bytes|;
        assert prefix == k.id.bytes[..|prefix|];
      }
    }
  }

  function Repeat(b: byte, n: nat): (s: Bytes)
    ensures |s| == n && All(s, b)
  {
    seq(n, _ => b)
  }

  /** The prefix that ends at the last version that could have come before all versions of the id. */
  function PastId(c: Conf, id: Id): (prefix: Bytes)
    requires Ok(c)
  {
    id.bytes + [0, c.vSize - 1] + Repeat(255, c.vSize + 1)
  }

  lemma PastIdRuns(c: Conf, id: Id)
    requires Ok(c) && TextId(id.bytes)
    ensures var n, prefix := |id.bytes|, PastId(c, id);
      && RunsPast(c, prefix, n) && |prefix| == n + c.vSize + 3 && prefix[..n] == id.bytes && prefix[n + 1] < 255
      && forall j :: n + 1 < j < |prefix| ==> prefix[j] == 255
  {
    hide Utf8;
    var n, prefix := |id.bytes|, PastId(c, id);
    assert prefix[..n] == id.bytes;
    assert forall j :: n + 1 < j < |prefix| ==> prefix[j] == Repeat(255, c.vSize + 1)[j - n - 2] == 255;
  }

  /** For every tree and id: a prefix that runs past the id, and the head key it selects by mistake. */
  lemma PrefixRunsPast(c: Conf, id: Id, r: Range)
    requires Ok(c) && TextId(id.bytes) && r.s == Prefix(c.name, 3) + PastId(c, id) && exists i: nat :: Bumped(r.s, r.e, i)
    ensures var k := HeadKey(id, Version(Repeat(0, c.vSize)));
      Fits(c, k) && Selects(r, Encode(c, k)) && !Meant(c, PastId(c, id), c, k)
  {
    hide Prefix, RunsPast, PastId, Meant, Selects, Short, TextId;
    var n, P, prefix := |id.bytes|, Prefix(c.name, 3), PastId(c, id);
    var i: nat :| Bumped(r.s, r.e, i);
    PastIdRuns(c, id);
    BumpedBehind(c, prefix, r, i, n);
    var e := r.e[|P|..];
    BumpedAt(prefix, e, i - |P|);
    assert i - |P| == n + 1;
    var k := RunsPastShort(c, prefix, e, i - |P|, n);
    assert k.v.bytes == Suffix(c, k)[n + 2..] == e[..n + 2 + c.vSize][n + 2..] == Repeat(0, c.vSize);
    Whole(P, r.e, i, Suffix(c, k));
    RangeShape(r.s, r.e, i, Encode(c, k));
    NotMeant(c, prefix, k);
  }

  /** The range of a prefix; incrementing never fails, as the first byte is the length of the name. */
  method GetHeadKeyPrefixRange(c: Conf, prefix: Bytes) returns (r: Range)
    requires Ok(c)
    ensures r.s == Prefix(c.name, 3) + prefix && exists i: nat :: Bumped(r.s, r.e, i)
    ensures NullFree(prefix) ==> forall c', k | Ok(c') && Fits(c', k) && (c'.name == c.name ==> c'.vSize == c.vSize) ::
              Selects(r, Encode(c', k)) <==> c'.name == c.name && k.HeadKey? && prefix <= k.id.bytes
  {
    var hprefix := Prefix(c.name, 3);
    var s := new Buffer(|hprefix| + |prefix|);
    s.Put(hprefix);
    s.Put(prefix);
    assert [] + hprefix + prefix == hprefix + prefix;
    var start := s.data[..s.offset];
    var e := IncrementKey(start);
    assert start[0] < 255;
    r := Range(start, e.value);
    if NullFree(prefix) {
      forall c', k | Ok(c') && Fits(c', k) && (c'.name == c.name ==> c'.vSize == c.vSize)
        ensures Selects(r, Encode(c', k)) <==> c'.name == c.name && k.HeadKey? && prefix <= k.id.bytes
      {
        IdPrefixRange(c, prefix, r, c', k);
      }
    }
  }
}
