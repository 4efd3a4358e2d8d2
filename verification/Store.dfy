/** The ordered key-value store under every tree: atomic batches and range scans. */
module Store {
  import opened Items
  import opened Bytes
  import opened Keys

  /** Index entries are byte strings, data entries whole items. */
  datatype DbVal = Raw(bytes: Bytes) | Doc(item: Item)

  type Db = map<Bytes, DbVal>

  datatype Op = Put(key: Bytes, val: DbVal) | Del(key: Bytes)

  function ApplyOne(m: Db, op: Op): Db {
    match op
    case Put(key, val) => m[key := val]
    case Del(key) => m - {key}
  }

  /** The operations of a batch, in order. */
  function Apply(m: Db, ops: seq<Op>): Db {
    if ops == [] then m else ApplyOne(Apply(m, ops[..|ops| - 1]), ops[|ops| - 1])
  }

  lemma {:induction false} ApplyConcat(m: Db, a: seq<Op>, b: seq<Op>)
    ensures Apply(m, a + b) == Apply(Apply(m, a), b)
    decreases |b|
  {
    if b == [] {
      assert a + b == a;
    } else {
      ApplyConcat(m, a, b[..|b| - 1]);
      assert (a + b)[..|a + b| - 1] == a + b[..|b| - 1];
    }
  }

  /** Bounds of a scan: inclusive unless the flag says otherwise. */
  predicate Within(r: Range, gt: bool, lt: bool, b: Bytes) {
    InRange(r, b) && (gt ==> b != r.s) && (lt ==> b != r.e)
  }

  ghost predicate Ascending(ks: seq<Bytes>) {
    forall i, j :: 0 <= i < j < |ks| ==> Lt(ks[i], ks[j])
  }

  ghost predicate IsScan(m: Db, r: Range, gt: bool, lt: bool, ks: seq<Bytes>) {
    Ascending(ks) && forall b :: b in ks <==> b in m && Within(r, gt, lt, b)
  }

  /** A range has one scan. */
  lemma {:induction false} ScanUnique(a: seq<Bytes>, b: seq<Bytes>)
    requires Ascending(a) && Ascending(b) && forall x :: x in a <==> x in b
    ensures a == b
    decreases |a|
  {
    if b != [] {
      assert b[0] in a;
    }
    if a != [] {
      assert a[0] in b;
      assert b[0] in a;
      LtTotal(a[0], b[0]);
      var i :| 0 <= i < |b| && b[i] == a[0];
      var j :| 0 <= j < |a| && a[j] == b[0];
      assert i == 0 && j == 0;
      forall x ensures x in a[1..] <==> x in b[1..] {
        LtTotal(a[0], x);
        assert x in a <==> x == a[0] || x in a[1..];
        assert x in b <==> x == b[0] || x in b[1..];
      }
      ScanUnique(a[1..], b[1..]);
    }
  }

  lemma {:induction false} LeastExists(s: set<Bytes>)
    requires s != {}
    ensures exists k :: k in s && forall x :: x in s ==> Le(k, x)
  {
    hide Lt;
    var a :| a in s;
    if s != {a} {
      LeastExists(s - {a});
      var b :| b in s - {a} && forall x :: x in s - {a} ==> Le(b, x);
      LtTotal(a, b);
      var k := if Lt(a, b) then a else b;
      forall x | x in s ensures Le(k, x) {
        if x != a {
          assert x in s - {a};
          if k == a { LeTrans(a, b, x); }
        }
      }
    }
  }

  class Store {
    var m: Db

    constructor ()
      ensures m == map[]
    {
      m := map[];
    }

    method Batch(ops: seq<Op>)
      modifies this
      ensures m == Apply(old(m), ops)
    {
      m := Apply(m, ops);
    }

    /** The keys of a range in ascending order, as an iterator yields them. */
    method Scan(r: Range, gt: bool, lt: bool) returns (ks: seq<Bytes>)
      ensures IsScan(m, r, gt, lt, ks)
    {
      var rest := set b | b in m && Within(r, gt, lt, b);
      ghost var all := rest;
      ks := [];
      while rest != {}
        invariant Ascending(ks) && rest <= all
        invariant forall b :: b in all <==> b in rest || b in ks
        invariant forall b, x :: b in ks && x in rest ==> Lt(b, x)
        decreases |rest|
      {
        LeastExists(rest);
        var k :| k in rest && forall x :: x in rest ==> Le(k, x);
        rest := rest - {k};
        ks := ks + [k];
      }
    }
  }
}
