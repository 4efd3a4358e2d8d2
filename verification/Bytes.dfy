/** Byte strings as the key-value store orders them, and big-endian numbers. */
module Bytes {
  import opened Items

  type Bytes = seq<byte>

  /** Bytewise comparison; a proper prefix comes first. */
  predicate Lt(a: Bytes, b: Bytes) {
    b != [] && (a == [] || a[0] < b[0] || (a[0] == b[0] && Lt(a[1..], b[1..])))
  }

  predicate Le(a: Bytes, b: Bytes) {
    a == b || Lt(a, b)
  }

  lemma {:induction false} LtCancel(p: Bytes, a: Bytes, b: Bytes)
    ensures Lt(p + a, p + b) <==> Lt(a, b)
    decreases |p|
  {
    if p == [] {
      assert p + a == a && p + b == b;
    } else {
      LtCancel(p[1..], a, b);
      assert (p + a)[1..] == p[1..] + a && (p + b)[1..] == p[1..] + b;
    }
  }

  lemma {:induction false} LtExtend(a: Bytes, b: Bytes, x: Bytes, y: Bytes)
    requires |a| == |b| && Lt(a, b)
    ensures Lt(a + x, b + y)
    decreases |a|
  {
    assert (a + x)[1..] == a[1..] + x && (b + y)[1..] == b[1..] + y;
    if a[0] == b[0] {
      LtExtend(a[1..], b[1..], x, y);
    }
  }

  lemma {:induction false} LtTotal(a: Bytes, b: Bytes)
    ensures a == b || Lt(a, b) || Lt(b, a)
    ensures !(a == b && Lt(a, b)) && !(Lt(a, b) && Lt(b, a))
    decreases |a|
  {
    if a != [] && b != [] {
      LtTotal(a[1..], b[1..]);
      assert a == [a[0]] + a[1..] && b == [b[0]] + b[1..];
    }
  }

  lemma {:induction false} LtTrans(a: Bytes, b: Bytes, c: Bytes)
    requires Lt(a, b) && Lt(b, c)
    ensures Lt(a, c)
    decreases |a|
  {
    if a != [] && a[0] == b[0] && b[0] == c[0] {
      LtTrans(a[1..], b[1..], c[1..]);
    }
  }

  /** Everything between `p` and an extension of `p` starts with `p`. */
  lemma {:induction false} Between(p: Bytes, x: Bytes, k: Bytes)
    requires Le(p, k) && Le(k, p + x)
    ensures p <= k
    decreases |p|
  {
    if p != [] {
      LtTotal(p, k);
      assert (p + x)[1..] == p[1..] + x;
      if k != p + x && k != p {
        assert p[0] == k[0];
        Between(p[1..], x, k[1..]);
        assert k == [k[0]] + k[1..] && p == [p[0]] + p[1..];
      }
    }
  }

  lemma PrefixLe(p: Bytes, k: Bytes)
    requires p <= k
    ensures Le(p, k)
  {
    assert k == p + k[|p|..];
    if k != p {
      LtCancel(p, [], k[|p|..]);
      assert p + [] == p;
    }
  }

  function Pow256(n: nat): (r: nat)
    ensures r > 0
  {
    if n == 0 then 1 else 256 * Pow256(n - 1)
  }

  function WriteBE(i: nat, n: nat): (r: Bytes)
    requires i < Pow256(n)
    ensures |r| == n
  {
    if n == 0 then [] else WriteBE(i / 256, n - 1) + [i % 256]
  }

  function ReadBE(b: Bytes): (r: nat)
    ensures r < Pow256(|b|)
  {
    if b == [] then 0 else ReadBE(b[..|b| - 1]) * 256 + b[|b| - 1]
  }

  lemma {:induction false} ReadWrite(i: nat, n: nat)
    requires i < Pow256(n)
    ensures ReadBE(WriteBE(i, n)) == i
  {
    if n > 0 {
      ReadWrite(i / 256, n - 1);
      assert WriteBE(i, n)[..n - 1] == WriteBE(i / 256, n - 1);
    }
  }

  lemma {:induction false} WriteRead(b: Bytes)
    ensures WriteBE(ReadBE(b), |b|) == b
  {
    if b != [] {
      var n := |b| - 1;
      WriteRead(b[..n]);
      assert ReadBE(b) / 256 == ReadBE(b[..n]) && ReadBE(b) % 256 == b[n];
      assert b == b[..n] + [b[n]];
    }
  }

  /** Big-endian numbers of one width compare as numbers. */
  lemma {:induction false} WriteOrder(i: nat, j: nat, n: nat)
    requires i < Pow256(n) && j < Pow256(n)
    ensures Lt(WriteBE(i, n), WriteBE(j, n)) <==> i < j
  {
    if i < j {
      WriteLt(i, j, n);
    } else if j < i {
      WriteLt(j, i, n);
    }
    LtTotal(WriteBE(i, n), WriteBE(j, n));
  }

  lemma {:induction false} WriteLt(i: nat, j: nat, n: nat)
    requires i < j < Pow256(n)
    ensures Lt(WriteBE(i, n), WriteBE(j, n))
  {
    var a, b := WriteBE(i / 256, n - 1), WriteBE(j / 256, n - 1);
    if i / 256 < j / 256 {
      WriteLt(i / 256, j / 256, n - 1);
      LtExtend(a, b, [i % 256], [j % 256]);
    } else {
      LtCancel(a, [i % 256], [j % 256]);
    }
  }

  lemma WriteInjective(i: nat, j: nat, n: nat)
    requires i < Pow256(n) && j < Pow256(n) && WriteBE(i, n) == WriteBE(j, n)
    ensures i == j
  {
    ReadWrite(i, n);
    ReadWrite(j, n);
  }
}
