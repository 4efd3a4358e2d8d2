/**
 * The queue of merges that wait for confirmation, and the loop that takes the confirmed entries
 * of one id out of it.
 */
module Queue {
  import opened Items

  /** A waiting merge: the item, the version of the head it was merged with, the ancestors found, conflicting keys. */
  datatype Entry = Entry(n: Item, l: Option<Version>, lcas: seq<Version>, c: Option<seq<string>>)

  type Entries = seq<Entry>

  /** What was taken out and what is left; reading past the end of the array throws on the way. */
  datatype Taken = Taken(thrown: bool, items: seq<Item>, rest: Entries)

  predicate Of(e: Entry, id: Id) {
    e.n.id == id
  }

  ghost function Prepend(items: seq<Item>, front: Entries, r: Taken): Taken {
    Taken(r.thrown, items + r.items, front + r.rest)
  }

  /** What is meant: everything of the id up to the confirmed entry, and the rest of the queue. */
  ghost function Meant(t: Entries, id: Id, n: nat): Taken
    requires n <= |t|
  {
    if n == 0 then Taken(false, [], t)
    else if Of(t[0], id) then Prepend([t[0].n], [], Meant(t[1..], id, n - 1))
    else Prepend([], [t[0]], Meant(t[1..], id, n - 1))
  }

  /** What `steps` rounds of the loop do to the part of the queue from its index on. */
  ghost function Loop(t: Entries, id: Id, steps: nat): Taken {
    if steps == 0 then Taken(false, [], t)
    else if t == [] then Taken(true, [], [])
    else if Of(t[0], id) then
      if |t| == 1 then Taken(steps != 1, [t[0].n], [])
      else Prepend([t[0].n], [t[1]], Loop(t[2..], id, steps - 1))   // the next entry moves up and is passed over
    else Prepend([], [t[0]], Loop(t[1..], id, steps - 1))
  }

  /** Splice the entries of an id out, the index moving on after every round. */
  method TakeConfirmed(tmp: Entries, id: Id, found: nat) returns (r: Taken)
    ensures r == Loop(tmp, id, found + 1)
  {
    hide Loop, Prepend;
    var t, items := tmp, [];
    var i := 0;
    Untouched(tmp, Loop(tmp, id, found + 1));
    ghost var goal := Loop(tmp, id, found + 1);
    assert tmp[0..] == tmp;
    while i <= found
      invariant i <= found + 1
      invariant i <= |t| ==> goal == Prepend(items, t[..i], Loop(t[i..], id, found + 1 - i))
      invariant i > |t| ==> i == |t| + 1 && goal == Taken(i <= found, items, t)
    {
      if i >= |t| {
        if i == |t| { NoneLeft(items, t, id, i, found + 1 - i); }
        return Taken(true, items, t);
      }
      if Of(t[i], id) {
        Hit(items, t, id, i, found + 1 - i);
        items := items + [t[i].n];
        t := t[..i] + t[i + 1..];
      } else {
        Miss(items, t, id, i, found + 1 - i);
      }
      i := i + 1;
    }
    if i <= |t| {
      NoneLeft(items, t, id, i, 0);
    }
    r := Taken(false, items, t);
  }

  lemma Untouched(t: Entries, r: Taken)
    ensures r == Prepend([], t[..0], r)
  {
    assert [] + r.items == r.items && t[..0] + r.rest == r.rest;
  }

  /** No rounds left, or no entries. */
  lemma NoneLeft(items: seq<Item>, t: Entries, id: Id, i: nat, steps: nat)
    requires i <= |t| && (steps == 0 || i == |t|)
    ensures Prepend(items, t[..i], Loop(t[i..], id, steps)) == Taken(steps > 0, items, t)
  {
    assert t[..i] + t[i..] == t && t[..|t|] == t;
  }

  lemma Miss(items: seq<Item>, t: Entries, id: Id, i: nat, steps: nat)
    requires i < |t| && steps > 0 && !Of(t[i], id)
    ensures Prepend(items, t[..i], Loop(t[i..], id, steps)) == Prepend(items, t[..i + 1], Loop(t[i + 1..], id, steps - 1))
  {
    assert t[i..][0] == t[i] && t[i..][1..] == t[i + 1..];
    assert t[..i + 1] == t[..i] + [t[i]];
    var r := Loop(t[i + 1..], id, steps - 1);
    assert t[..i] + ([t[i]] + r.rest) == t[..i + 1] + r.rest;
  }

  lemma Hit(items: seq<Item>, t: Entries, id: Id, i: nat, steps: nat)
    requires i < |t| && steps > 0 && Of(t[i], id)
    ensures
      var u := t[..i] + t[i + 1..];
      var goal := Prepend(items, t[..i], Loop(t[i..], id, steps));
      var items' := items + [t[i].n];
      if i + 1 <= |u| then goal == Prepend(items', u[..i + 1], Loop(u[i + 1..], id, steps - 1))
      else i + 1 == |u| + 1 && goal == Taken(steps != 1, items', u)
  {
    var u := t[..i] + t[i + 1..];
    assert t[i..][0] == t[i];
    if i + 1 <= |u| {
      assert t[i..][1] == t[i + 1] && t[i..][2..] == t[i + 2..] == u[i + 1..];
      assert u[..i + 1] == t[..i] + [t[i + 1]];
      var r := Loop(t[i + 2..], id, steps - 1);
      assert items + ([t[i].n] + r.items) == items + [t[i].n] + r.items;
      assert t[..i] + ([t[i + 1]] + r.rest) == u[..i + 1] + r.rest;
    } else {
      assert u == t[..i];
      assert t[..i] + [] == t[..i];
    }
  }

  // ---- when the loop does what is meant ----

  /** How many of the first `n` entries are of the id. */
  ghost function CountOf(t: Entries, id: Id, n: nat): nat
    requires n <= |t|
  {
    if n == 0 then 0 else CountOf(t[1..], id, n - 1) + if Of(t[0], id) then 1 else 0
  }

  /** No two neighbours among the first `n` entries are both of the id. */
  ghost predicate Spaced(t: Entries, id: Id, n: nat)
    requires n <= |t|
  {
    forall j :: 0 <= j < n - 1 ==> !(Of(t[j], id) && Of(t[j + 1], id))
  }

  ghost predicate NoneOf(t: Entries, id: Id, a: nat, b: nat) {
    b <= |t| && forall j :: a <= j < b ==> !Of(t[j], id)
  }

  /** What a caller can check: entries of the id are spaced, and the rounds left over find no other. */
  ghost predicate Safe(t: Entries, id: Id, steps: nat, n: nat)
    requires n <= |t|
  {
    Spaced(t, id, n) && (steps + CountOf(t, id, n) > n + 1 ==> NoneOf(t, id, n + 1, steps + CountOf(t, id, n)))
  }

  /** The entries of an id are for different versions. */
  ghost predicate Apart(t: Entries, id: Id) {
    forall i, j :: 0 <= i < j < |t| && Of(t[i], id) && Of(t[j], id) ==> t[i] != t[j]
  }

  lemma {:induction false} LoopNothing(t: Entries, id: Id, steps: nat)
    ensures Loop(t, id, steps) == Taken(false, [], t) <==> NoneOf(t, id, 0, steps) || steps == 0
  {
    if steps > 0 && t != [] {
      if Of(t[0], id) {
        assert !NoneOf(t, id, 0, steps);
      } else {
        LoopNothing(t[1..], id, steps - 1);
        ShiftNone(t, id, 0, steps, 1);
        assert t == [t[0]] + t[1..];
        var r := Loop(t[1..], id, steps - 1);
        if r.rest != t[1..] {
          assert ([t[0]] + r.rest)[1..] == r.rest;
        }
      }
    }
  }

  lemma ShiftNone(t: Entries, id: Id, a: nat, b: nat, k: nat)
    requires k <= |t| && k <= b && forall j :: a <= j < k ==> !Of(t[j], id)
    ensures NoneOf(t, id, a, b) <==> NoneOf(t[k..], id, if a > k then a - k else 0, b - k)
  {
    var u := t[k..];
    if NoneOf(t, id, a, b) {
      forall j | (if a > k then a - k else 0) <= j < b - k ensures !Of(u[j], id) {
        assert u[j] == t[j + k];
      }
    }
    if NoneOf(u, id, if a > k then a - k else 0, b - k) {
      forall j | a <= j < b ensures !Of(t[j], id) {
        if j >= k { assert t[j] == u[j - k]; }
      }
    }
  }

  /** What stays in the queue: other ids, and what comes after. */
  lemma {:induction false} MeantRest(t: Entries, id: Id, n: nat, e: Entry)
    requires n <= |t| && e in Meant(t, id, n).rest
    ensures !Of(e, id) || e in t[n..]
  {
    if n > 0 {
      assert t[1..][n - 1..] == t[n..];
      if e in Meant(t[1..], id, n - 1).rest {
        MeantRest(t[1..], id, n - 1, e);
      }
    }
  }

  lemma PrependCancel(a: seq<Item>, b: Entries, x: Taken, y: Taken)
    ensures Prepend(a, b, x) == Prepend(a, b, y) <==> x == y
  {
    assert (a + x.items)[|a|..] == x.items && (a + y.items)[|a|..] == y.items;
    assert (b + x.rest)[|b|..] == x.rest && (b + y.rest)[|b|..] == y.rest;
  }

  lemma ApartTail(t: Entries, id: Id, k: nat)
    requires Apart(t, id) && k <= |t|
    ensures Apart(t[k..], id)
  {
    var u := t[k..];
    forall i, j | 0 <= i < j < |u| && Of(u[i], id) && Of(u[j], id) ensures u[i] != u[j] {
      assert u[i] == t[i + k] && u[j] == t[j + k];
    }
  }

  /**
   * The loop takes out what is meant, no more and no less, exactly when the entries of the id up to
   * the confirmed one are spaced and the rounds left over meet no further entry of the id.
   */
  lemma {:induction false} LoopIsMeant(t: Entries, id: Id, steps: nat, n: nat)
    requires 0 < n <= |t| && n <= steps && Of(t[n - 1], id) && Apart(t, id)
    ensures Loop(t, id, steps) == Meant(t, id, n) <==> Safe(t, id, steps, n)
    decreases n
  {
    if !Of(t[0], id) {
      SkipOther(t, id, steps, n);
    } else if n == 1 {
      LastOne(t, id, steps);
    } else if Of(t[1], id) {
      assert !Spaced(t, id, n);
      var w := Meant(t, id, n);
      if t[1] in w.rest {
        MeantRest(t, id, n, t[1]);
      }
    } else {
      SkipTwo(t, id, steps, n);
    }
  }

  lemma SkipOther(t: Entries, id: Id, steps: nat, n: nat)
    requires 1 < n <= |t| && n <= steps && Of(t[n - 1], id) && Apart(t, id) && !Of(t[0], id)
    ensures Loop(t, id, steps) == Meant(t, id, n) <==> Safe(t, id, steps, n)
    decreases n, 0
  {
    var u := t[1..];
    ApartTail(t, id, 1);
    assert u[n - 2] == t[n - 1];
    LoopIsMeant(u, id, steps - 1, n - 1);
    var r, w := Loop(u, id, steps - 1), Meant(u, id, n - 1);
    PrependCancel([], [t[0]], r, w);
    assert [] + w.items == w.items && [] + r.items == r.items;
    SpacedTail(t, id, n);
    var m := CountOf(t, id, n);
    if steps + m > n + 1 {
      NoneShift(t, id, n + 1, steps + m, 1);
    }
  }

  lemma SpacedTail(t: Entries, id: Id, n: nat)
    requires 1 <= n <= |t| && (!Of(t[0], id) || n == 1 || !Of(t[1], id))
    ensures Spaced(t, id, n) <==> Spaced(t[1..], id, n - 1)
  {
    var u := t[1..];
    if Spaced(u, id, n - 1) {
      forall j | 0 <= j < n - 1 ensures !(Of(t[j], id) && Of(t[j + 1], id)) {
        if j > 0 { assert u[j - 1] == t[j] && u[j] == t[j + 1]; }
      }
    }
    if Spaced(t, id, n) {
      forall j | 0 <= j < n - 2 ensures !(Of(u[j], id) && Of(u[j + 1], id)) {
        assert u[j] == t[j + 1] && u[j + 1] == t[j + 2];
      }
    }
  }

  lemma NoneShift(t: Entries, id: Id, a: nat, b: nat, k: nat)
    requires k <= a <= b && k <= |t|
    ensures NoneOf(t, id, a, b) <==> NoneOf(t[k..], id, a - k, b - k)
  {
    var u := t[k..];
    if NoneOf(t, id, a, b) {
      forall j | a - k <= j < b - k ensures !Of(u[j], id) { assert u[j] == t[j + k]; }
    }
    if NoneOf(u, id, a - k, b - k) {
      forall j | a <= j < b ensures !Of(t[j], id) { assert t[j] == u[j - k]; }
    }
  }

  lemma LastOne(t: Entries, id: Id, steps: nat)
    requires 0 < |t| && 0 < steps && Of(t[0], id)
    ensures Loop(t, id, steps) == Meant(t, id, 1) <==> Safe(t, id, steps, 1)
  {
    assert Meant(t[1..], id, 0) == Taken(false, [], t[1..]);
    assert CountOf(t[1..], id, 0) == 0;
    if |t| > 1 {
      LoopNothing(t[2..], id, steps - 1);
      var r := Loop(t[2..], id, steps - 1);
      PrependCancel([t[0].n], [t[1]], r, Taken(false, [], t[2..]));
      assert t[1..] == [t[1]] + t[2..];
      if steps > 1 {
        NoneShift(t, id, 2, steps + 1, 2);
      }
    }
  }

  lemma SkipTwo(t: Entries, id: Id, steps: nat, n: nat)
    requires 2 <= n <= |t| && n <= steps && Of(t[n - 1], id) && Apart(t, id) && Of(t[0], id) && !Of(t[1], id)
    ensures Loop(t, id, steps) == Meant(t, id, n) <==> Safe(t, id, steps, n)
    decreases n, 0
  {
    hide Meant, Safe, Apart;
    var u := t[2..];
    assert n > 2 && u[n - 3] == t[n - 1];
    ApartTail(t, id, 2);
    LoopIsMeant(u, id, steps - 1, n - 2);
    PrependCancel([t[0].n], [t[1]], Loop(u, id, steps - 1), Meant(u, id, n - 2));
    MeantTwo(t, id, n);
    SafeTwo(t, id, steps, n);
  }

  lemma MeantTwo(t: Entries, id: Id, n: nat)
    requires 2 <= n <= |t| && Of(t[0], id) && !Of(t[1], id)
    ensures Meant(t, id, n) == Prepend([t[0].n], [t[1]], Meant(t[2..], id, n - 2))
  {
    assert t[1..][1..] == t[2..] && t[1..][0] == t[1];
    var w := Meant(t[2..], id, n - 2);
    assert [] + w.items == w.items && [] + ([t[1]] + w.rest) == [t[1]] + w.rest;
  }

  lemma SafeTwo(t: Entries, id: Id, steps: nat, n: nat)
    requires 2 <= n <= |t| && n <= steps && Of(t[0], id) && !Of(t[1], id)
    ensures Safe(t, id, steps, n) <==> Safe(t[2..], id, steps - 1, n - 2)
  {
    hide Spaced, NoneOf;
    var u := t[2..];
    assert t[1..][1..] == u && t[1..][0] == t[1];
    SpacedTail(t, id, n);
    SpacedTail(t[1..], id, n - 1);
    assert CountOf(t, id, n) == 1 + CountOf(u, id, n - 2);
    if steps + CountOf(t, id, n) > n + 1 {
      NoneShift(t, id, n + 1, steps + CountOf(t, id, n), 2);
    }
  }

  /** The common case: nothing of the id is queued before the confirmed entry, and just that entry is taken. */
  lemma {:induction false} FirstOfId(t: Entries, id: Id, n: nat)
    requires 0 < n <= |t| && Of(t[n - 1], id) && forall j :: 0 <= j < n - 1 ==> !Of(t[j], id)
    ensures Loop(t, id, n) == Taken(false, [t[n - 1].n], t[..n - 1] + t[n..])
  {
    if n == 1 {
      assert t[..0] + t[1..] == t[1..];
      if |t| > 1 { assert t[1..] == [t[1]] + t[2..]; }
    } else {
      var u := t[1..];
      forall j | 0 <= j < n - 2 ensures !Of(u[j], id) { assert u[j] == t[j + 1]; }
      FirstOfId(u, id, n - 1);
      assert [t[0]] + (u[..n - 2] + u[n - 1..]) == t[..n - 1] + t[n..];
    }
  }

  /** Three neighbours of one id, the second confirmed: the loop takes the first and the third instead. */
  lemma NeighboursGoWrong(a: Entry, b: Entry, d: Entry, id: Id)
    requires Of(a, id) && Of(b, id) && Of(d, id)
    ensures Loop([a, b, d], id, 2) == Taken(false, [a.n, d.n], [b])
    ensures Meant([a, b, d], id, 2) == Taken(false, [a.n, b.n], [d])
  {
    var t := [a, b, d];
    assert t[2..] == [d] && t[1..] == [b, d] && t[1..][1..] == [d];
    assert Loop([d], id, 1) == Taken(false, [d.n], []);
    assert Meant([b, d], id, 1) == Taken(false, [b.n], [d]) by {
      assert [b, d][1..] == [d] && Meant([d], id, 0) == Taken(false, [], [d]);
    }
  }

  /**
   * A genuine merge is queued right after the remote item it merges. Confirmed at the front of the
   * queue, it is never taken: the loop throws, or takes the remote item and perhaps an entry that
   * comes after the merge, and the merge stays behind.
   */
  lemma MergeIsMissed(remote: Entry, merge: Entry, rest: Entries, id: Id)
    requires Of(remote, id) && Of(merge, id)
    ensures Loop([remote, merge] + rest, id, 2) ==
            if rest == [] then Taken(true, [remote.n], [merge])
            else if Of(rest[0], id) then Taken(false, [remote.n, rest[0].n], [merge] + rest[1..])
            else Taken(false, [remote.n], [merge] + rest)
  {
    var t := [remote, merge] + rest;
    assert t[0] == remote && t[1] == merge && t[2..] == rest;
    OneRound(rest, id);
    assert Loop(t, id, 2) == Prepend([remote.n], [merge], Loop(rest, id, 1));
    hide Loop;
    assert [remote.n] + [] == [remote.n] && [merge] + [] == [merge];
  }

  lemma OneRound(t: Entries, id: Id)
    ensures Loop(t, id, 1) ==
            if t == [] then Taken(true, [], [])
            else if Of(t[0], id) then Taken(false, [t[0].n], t[1..])
            else Taken(false, [], t)
  {
    if t != [] {
      if !Of(t[0], id) {
        assert Loop(t[1..], id, 0) == Taken(false, [], t[1..]);
        assert t == [t[0]] + t[1..];
      } else if |t| > 1 {
        assert Loop(t[2..], id, 0) == Taken(false, [], t[2..]);
        assert t[1..] == [t[1]] + t[2..];
      } else {
        assert t[1..] == [];
      }
    }
  }

  /** The items are those of the entries of the id at the positions `at`, in order. */
  ghost predicate TakenAt(t: Entries, id: Id, at: seq<nat>, items: seq<Item>) {
    && |at| == |items| && (forall i, j :: 0 <= i < j < |at| ==> at[i] < at[j])
    && (forall j :: 0 <= j < |at| ==> at[j] < |t| && Of(t[at[j]], id) && items[j] == t[at[j]].n)
  }

  lemma Shifted(t: Entries, id: Id, k: nat, at: seq<nat>, items: seq<Item>) returns (at': seq<nat>)
    requires k <= |t| && TakenAt(t[k..], id, at, items)
    ensures TakenAt(t, id, at', items) && (at' != [] ==> at'[0] >= k)
  {
    at' := seq(|at|, j requires 0 <= j < |at| => at[j] + k);
    forall j | 0 <= j < |at| ensures t[k..][at[j]] == t[at[j] + k] {
    }
  }

  /** What the loop takes are entries of the id, in queue order. */
  lemma {:induction false} LoopTakes(t: Entries, id: Id, steps: nat) returns (at: seq<nat>)
    ensures TakenAt(t, id, at, Loop(t, id, steps).items)
    decreases |t|
  {
    if steps == 0 || t == [] {
      at := [];
    } else if Of(t[0], id) && |t| == 1 {
      at := [0];
    } else {
      var k := if Of(t[0], id) then 2 else 1;
      at := LoopTakes(t[k..], id, steps - 1);
      at := Shifted(t, id, k, at, Loop(t[k..], id, steps - 1).items);
      if k == 2 {
        at := [0] + at;
      } else {
        assert [] + Loop(t[1..], id, steps - 1).items == Loop(t[1..], id, steps - 1).items;
      }
    }
  }
}
