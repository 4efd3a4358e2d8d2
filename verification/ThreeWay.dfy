/** Merging two documents key by key against one ancestor, or one ancestor per side. */
module ThreeWay {
  import opened Items

  datatype Delta = Created | Changed | Removed

  datatype MergeResult = Merged(body: Body) | Conflicts(keys: seq<string>)

  /** What became of one key. */
  datatype Outcome = Conflict | Value(val: Option<Val>)

  function Lookup(m: Body, k: string): Option<Val> {
    if k in m then Some(m[k]) else None
  }

  function Kind(now: Option<Val>, before: Option<Val>): Option<Delta> {
    if now.Some? && before.Some? then (if now != before then Some(Changed) else None)
    else if now.Some? then Some(Created)
    else if before.Some? then Some(Removed)
    else None
  }

  /** What the merge makes of a key with values `a` and `b` and ancestor values `la` and `lb`. */
  ghost function KeyOutcome(a: Option<Val>, b: Option<Val>, la: Option<Val>, lb: Option<Val>): Outcome {
    var dA, dB := Kind(a, la), Kind(b, lb);
    if dA == Some(Created) && lb.Some? then Conflict           // created by A, yet known to B's ancestor
    else if dB == None then Value(a)
    else if dA != None && dA != dB then Conflict               // changed in different ways
    else if dB == Some(Removed) then Value(None)
    else if a != b && (dA != None || (dB == Some(Created) && a.Some?)) then Conflict
    else Value(b)
  }

  ghost function OutcomeOf(itemA: Body, itemB: Body, lcaA: Body, lcaB: Body, k: string): Outcome {
    KeyOutcome(Lookup(itemA, k), Lookup(itemB, k), Lookup(lcaA, k), Lookup(lcaB, k))
  }

  /** The textbook rule: take the changed side, take equal changes, otherwise report a conflict. */
  ghost function Diff3(a: Option<Val>, b: Option<Val>, l: Option<Val>): Outcome {
    if a == b then Value(a) else if b == l then Value(a) else if a == l then Value(b) else Conflict
  }

  type Deltas = map<string, Delta>

  ghost predicate IsDiff(d: Deltas, item: Body, lca: Body) {
    forall k :: (if k in d then Some(d[k]) else None) == Kind(Lookup(item, k), Lookup(lca, k))
  }

  /** The changes of a document with respect to an ancestor. */
  method Diff(item: Body, lca: Body) returns (d: Deltas)
    ensures IsDiff(d, item, lca)
  {
    d := map[];
    var keys := item.Keys;
    while keys != {}
      invariant keys <= item.Keys
      invariant forall k :: (if k in d then Some(d[k]) else None) ==
                  if k in item && k !in keys then Kind(Lookup(item, k), Lookup(lca, k)) else None
    {
      var k :| k in keys;
      if k in lca {
        if item[k] != lca[k] { d := d[k := Changed]; }
      } else {
        d := d[k := Created];
      }
      keys := keys - {k};
    }
    keys := lca.Keys;
    while keys != {}
      invariant keys <= lca.Keys
      invariant forall k :: (if k in d then Some(d[k]) else None) ==
                  if k in item || k !in keys then Kind(Lookup(item, k), Lookup(lca, k)) else None
    {
      var k :| k in keys;
      if k !in item { d := d[k := Removed]; }
      keys := keys - {k};
    }
  }

  /** One key changed by B: apply the change, or report the key. */
  method ApplyDelta(k: string, diffA: Deltas, diffB: Deltas, itemA: Body, itemB: Body, merged: Body, conflicts: seq<string>)
    returns (merged': Body, conflicts': seq<string>)
    requires k in diffB && (k in itemB <==> diffB[k] != Removed)
    requires k in diffA && diffA[k] != Removed ==> k in itemA
    ensures
      var dA := if k in diffA then Some(diffA[k]) else None;
      var differ := Lookup(itemA, k) != Lookup(itemB, k);
      if dA != None && dA != Some(diffB[k]) then merged' == merged && conflicts' == conflicts + [k]
      else if diffB[k] == Removed then merged' == merged - {k} && conflicts' == conflicts
      else if differ && (dA != None || (diffB[k] == Created && k in itemA)) then merged' == merged && conflicts' == conflicts + [k]
      else merged' == merged[k := itemB[k]] && conflicts' == conflicts
  {
    merged', conflicts' := merged, conflicts;
    if k in diffA && diffA[k] != diffB[k] {
      conflicts' := conflicts' + [k];
    } else {
      if diffB[k] == Removed {
        merged' := merged' - {k};
      } else if k in diffA && diffA[k] == Changed && itemA[k] != itemB[k] {
        conflicts' := conflicts' + [k];
      } else if k in diffA && diffA[k] == Created && itemA[k] != itemB[k] {
        conflicts' := conflicts' + [k];
      } else if diffB[k] == Created && k in itemA && itemA[k] != itemB[k] {
        conflicts' := conflicts' + [k];
      } else {
        merged' := merged'[k := itemB[k]];
      }
    }
  }

  /** The conflicts are exactly the keys in conflict; without any, every key has its outcome. */
  ghost predicate IsResult(r: MergeResult, itemA: Body, itemB: Body, lcaA: Body, lcaB: Body) {
    && (r.Merged? <==> forall k :: OutcomeOf(itemA, itemB, lcaA, lcaB, k).Value?)
    && (r.Merged? ==> forall k :: OutcomeOf(itemA, itemB, lcaA, lcaB, k) == Value(Lookup(r.body, k)))
    && (r.Conflicts? ==> r.keys != [] && forall k :: k in r.keys <==> OutcomeOf(itemA, itemB, lcaA, lcaB, k).Conflict?)
  }

  /**
   * Merge two documents. Without a second ancestor, one ancestor serves both sides. Keys are visited
   * in any order; what is reported and what is merged does not depend on it.
   */
  method ThreeWayMerge(itemA: Body, itemB: Body, lca: Body, ancestorB: Option<Body>) returns (r: MergeResult)
    ensures IsResult(r, itemA, itemB, lca, if ancestorB.Some? then ancestorB.value else lca)
  {
    hide IsResult, Early, Late, Taken, IsDiff;
    var lcaB := if ancestorB.Some? then ancestorB.value else lca;
    var diffA := Diff(itemA, lca);
    var diffB := Diff(itemB, lcaB);
    var early := KnownToOther(diffA, itemA, lca, lcaB);
    var mergedItem, late := ApplyDeltas(diffA, diffB, itemA, itemB, lca, lcaB);
    var conflicts := early + late;
    Assemble(conflicts, mergedItem, itemA, itemB, lca, lcaB);
    if |conflicts| > 0 {
      return Conflicts(conflicts);
    }
    return Merged(mergedItem);
  }

  lemma Assemble(conflicts: seq<string>, mergedItem: Body, itemA: Body, itemB: Body, lca: Body, lcaB: Body)
    requires forall k :: k in conflicts <==> Early(itemA, lca, lcaB, k) || Late(itemA, itemB, lca, lcaB, k)
    requires forall k :: Lookup(mergedItem, k)
                         == if Taken(itemA, itemB, lca, lcaB, k) then Lookup(itemB, k) else Lookup(itemA, k)
    ensures IsResult(if |conflicts| > 0 then Conflicts(conflicts) else Merged(mergedItem), itemA, itemB, lca, lcaB)
  {
    hide OutcomeOf, Early, Late, Taken, Lookup;
    forall k ensures OutcomeOf(itemA, itemB, lca, lcaB, k) == if k in conflicts then Conflict else Value(Lookup(mergedItem, k)) {
      OutcomeSplit(itemA, itemB, lca, lcaB, k);
    }
    if |conflicts| > 0 {
      assert conflicts[0] in conflicts;
    }
  }

  /** The keys A created that B's ancestor already had. */
  method KnownToOther(diffA: Deltas, ghost itemA: Body, ghost lca: Body, lcaB: Body) returns (conflicts: seq<string>)
    requires IsDiff(diffA, itemA, lca)
    ensures forall k :: k in conflicts <==> Early(itemA, lca, lcaB, k)
  {
    conflicts := [];
    var keys := lcaB.Keys;
    while keys != {}
      invariant keys <= lcaB.Keys
      invariant forall k :: k in conflicts <==> k in lcaB && k !in keys && k in diffA && diffA[k] == Created
    {
      var k :| k in keys;
      if k in diffA && diffA[k] == Created {
        conflicts := conflicts + [k];
      }
      keys := keys - {k};
    }
    forall k ensures k in diffA && diffA[k] == Created <==> Kind(Lookup(itemA, k), Lookup(lca, k)) == Some(Created) {
    }
  }

  /** Apply B's changes to a copy of A. */
  method ApplyDeltas(diffA: Deltas, diffB: Deltas, itemA: Body, itemB: Body, ghost lca: Body, ghost lcaB: Body)
    returns (mergedItem: Body, conflicts: seq<string>)
    requires IsDiff(diffA, itemA, lca) && IsDiff(diffB, itemB, lcaB)
    ensures forall k :: k in conflicts <==> Late(itemA, itemB, lca, lcaB, k)
    ensures forall k :: Lookup(mergedItem, k) == if Taken(itemA, itemB, lca, lcaB, k) then Lookup(itemB, k) else Lookup(itemA, k)
  {
    hide IsDiff, Late, Taken;
    mergedItem, conflicts := itemA, [];
    var keys := diffB.Keys;
    DiffKeys(diffB, itemA, itemB, lca, lcaB);
    while keys != {}
      invariant keys <= diffB.Keys
      invariant forall k :: k in conflicts <==> k !in keys && Late(itemA, itemB, lca, lcaB, k)
      invariant forall k :: Lookup(mergedItem, k) ==
                  if k !in keys && Taken(itemA, itemB, lca, lcaB, k) then Lookup(itemB, k) else Lookup(itemA, k)
    {
      var k :| k in keys;
      DeltaMeans(diffA, diffB, itemA, itemB, lca, lcaB, k);
      mergedItem, conflicts := ApplyDelta(k, diffA, diffB, itemA, itemB, mergedItem, conflicts);
      keys := keys - {k};
    }
  }

  lemma DiffKeys(diffB: Deltas, itemA: Body, itemB: Body, lca: Body, lcaB: Body)
    requires IsDiff(diffB, itemB, lcaB)
    ensures forall k :: k !in diffB ==> !Late(itemA, itemB, lca, lcaB, k) && !Taken(itemA, itemB, lca, lcaB, k)
  {
  }

  lemma DeltaMeans(diffA: Deltas, diffB: Deltas, itemA: Body, itemB: Body, lca: Body, lcaB: Body, k: string)
    requires IsDiff(diffA, itemA, lca) && IsDiff(diffB, itemB, lcaB) && k in diffB
    ensures (k in itemB <==> diffB[k] != Removed) && (k in diffA && diffA[k] != Removed ==> k in itemA)
    ensures
      var dA := if k in diffA then Some(diffA[k]) else None;
      var differ := Lookup(itemA, k) != Lookup(itemB, k);
      var late := (dA != None && dA != Some(diffB[k]))
                  || (diffB[k] != Removed && differ && (dA != None || (diffB[k] == Created && k in itemA)));
      (Late(itemA, itemB, lca, lcaB, k) <==> late) && (Taken(itemA, itemB, lca, lcaB, k) <==> !late)
  {
    assert Kind(Lookup(itemA, k), Lookup(lca, k)) == if k in diffA then Some(diffA[k]) else None;
    assert Kind(Lookup(itemB, k), Lookup(lcaB, k)) == Some(diffB[k]);
  }

  lemma OutcomeSplit(itemA: Body, itemB: Body, lca: Body, lcaB: Body, k: string)
    ensures OutcomeOf(itemA, itemB, lca, lcaB, k) ==
      if Early(itemA, lca, lcaB, k) || Late(itemA, itemB, lca, lcaB, k) then Conflict
      else Value(if Taken(itemA, itemB, lca, lcaB, k) then Lookup(itemB, k) else Lookup(itemA, k))
  {
  }

  /** Reported because A created a key that B's ancestor already had. */
  ghost predicate Early(itemA: Body, lca: Body, lcaB: Body, k: string) {
    k in lcaB && Kind(Lookup(itemA, k), Lookup(lca, k)) == Some(Created)
  }

  /** Reported when B's change is applied. */
  ghost predicate Late(itemA: Body, itemB: Body, lca: Body, lcaB: Body, k: string) {
    var dA, dB := Kind(Lookup(itemA, k), Lookup(lca, k)), Kind(Lookup(itemB, k), Lookup(lcaB, k));
    dB != None && ((dA != None && dA != dB) || (dB != Some(Removed) && Lookup(itemA, k) != Lookup(itemB, k)
                                                && (dA != None || (dB == Some(Created) && k in itemA))))
  }

  /** B's value, or its absence, goes into the result. */
  ghost predicate Taken(itemA: Body, itemB: Body, lca: Body, lcaB: Body, k: string) {
    Kind(Lookup(itemB, k), Lookup(lcaB, k)) != None && !Late(itemA, itemB, lca, lcaB, k)
  }

  // ---- one key ----

  /** With one ancestor the outcome of a key is the textbook rule. */
  lemma OneAncestorIsDiff3(a: Option<Val>, b: Option<Val>, l: Option<Val>)
    ensures KeyOutcome(a, b, l, l) == Diff3(a, b, l)
  {
  }

  // ---- whole documents ----

  function KeysOf(r: MergeResult): set<string> {
    if r.Merged? then {} else set k | k in r.keys
  }

  /** Two results that say the same: one document, or the same keys in conflict. */
  ghost predicate Alike(r: MergeResult, s: MergeResult) {
    KeysOf(r) == KeysOf(s) && (r.Merged? <==> s.Merged?) && (r.Merged? ==> r == s)
  }

  lemma SameBody(m: Body, n: Body)
    requires forall k :: Lookup(m, k) == Lookup(n, k)
    ensures m == n
  {
    assert forall k :: k in m <==> Lookup(m, k).Some?;
    assert forall k :: k in n <==> Lookup(n, k).Some?;
    assert forall k :: k in m ==> Lookup(m, k) == Lookup(n, k);
  }

  lemma SameOutcomes(r: MergeResult, s: MergeResult, a: Body, b: Body, la: Body, lb: Body,
                     a': Body, b': Body, la': Body, lb': Body)
    requires IsResult(r, a, b, la, lb) && IsResult(s, a', b', la', lb')
    requires forall k :: OutcomeOf(a, b, la, lb, k) == OutcomeOf(a', b', la', lb', k)
    ensures Alike(r, s)
  {
    hide OutcomeOf, Lookup;
    if r.Merged? && s.Merged? {
      forall k ensures Lookup(r.body, k) == Lookup(s.body, k) {
        assert OutcomeOf(a, b, la, lb, k) == OutcomeOf(a', b', la', lb', k);
      }
      SameBody(r.body, s.body);
    }
    if r.Conflicts? { assert r.keys[0] in r.keys; }
    if s.Conflicts? { assert s.keys[0] in s.keys; }
    forall k ensures k in KeysOf(r) <==> k in KeysOf(s) {
      assert OutcomeOf(a, b, la, lb, k) == OutcomeOf(a', b', la', lb', k);
    }
  }

  /** The order in which keys are visited does not matter. */
  lemma OneResult(r: MergeResult, s: MergeResult, a: Body, b: Body, la: Body, lb: Body)
    requires IsResult(r, a, b, la, lb) && IsResult(s, a, b, la, lb)
    ensures Alike(r, s)
  {
    SameOutcomes(r, s, a, b, la, lb, a, b, la, lb);
  }

  /** With one ancestor, merging is commutative. */
  lemma MergeCommutes(r: MergeResult, s: MergeResult, a: Body, b: Body, l: Body)
    requires IsResult(r, a, b, l, l) && IsResult(s, b, a, l, l)
    ensures Alike(r, s)
  {
    forall k ensures OutcomeOf(a, b, l, l, k) == OutcomeOf(b, a, l, l, k) {
      OneAncestorIsDiff3(Lookup(a, k), Lookup(b, k), Lookup(l, k));
      OneAncestorIsDiff3(Lookup(b, k), Lookup(a, k), Lookup(l, k));
    }
    SameOutcomes(r, s, a, b, l, l, b, a, l, l);
  }

  /** With one ancestor, exactly the keys changed on both sides to different values are in conflict. */
  lemma ConflictsAreBothChanged(r: MergeResult, a: Body, b: Body, l: Body, k: string)
    requires IsResult(r, a, b, l, l)
    ensures k in KeysOf(r) <==>
            Lookup(a, k) != Lookup(b, k) && Lookup(a, k) != Lookup(l, k) && Lookup(b, k) != Lookup(l, k)
  {
    assert OutcomeOf(a, b, l, l, k) == Diff3(Lookup(a, k), Lookup(b, k), Lookup(l, k));
  }

  /** An unchanged side leaves the document of the other, and equal documents merge to themselves. */
  lemma MergeIdentities(r: MergeResult, a: Body, l: Body)
    requires IsResult(r, a, l, l, l) || IsResult(r, l, a, l, l) || IsResult(r, a, a, l, l)
    ensures r == Merged(a)
  {
    var x := if IsResult(r, l, a, l, l) then l else a;
    var y := if !IsResult(r, l, a, l, l) && IsResult(r, a, l, l, l) then l else a;
    assert IsResult(r, x, y, l, l) && (x == a || x == l) && (y == a || y == l) && (x == a || y == a);
    forall k ensures OutcomeOf(x, y, l, l, k) == Value(Lookup(a, k)) {
      OneAncestorIsDiff3(Lookup(x, k), Lookup(y, k), Lookup(l, k));
    }
    assert r.Merged?;
    forall k ensures Lookup(r.body, k) == Lookup(a, k) {
      assert OutcomeOf(x, y, l, l, k) == Value(Lookup(r.body, k));
    }
    SameBody(r.body, a);
  }

  /** A key that neither B nor its ancestor has keeps the value of A and is never in conflict. */
  lemma AbsentFromB(r: MergeResult, a: Body, b: Body, la: Body, lb: Body, k: string)
    requires IsResult(r, a, b, la, lb) && k !in b && k !in lb
    ensures k !in KeysOf(r) && (r.Merged? ==> Lookup(r.body, k) == Lookup(a, k))
  {
    assert OutcomeOf(a, b, la, lb, k) == Value(Lookup(a, k));
  }

  /** A key that neither A nor its ancestor has enters exactly when B created or changed it. */
  lemma AbsentFromA(r: MergeResult, a: Body, b: Body, la: Body, lb: Body, k: string)
    requires IsResult(r, a, b, la, lb) && k !in a && k !in la
    ensures k !in KeysOf(r)
    ensures r.Merged? ==> Lookup(r.body, k) == if k in b && Lookup(b, k) != Lookup(lb, k) then Lookup(b, k) else None
  {
    assert OutcomeOf(a, b, la, lb, k) == Value(if k in b && Lookup(b, k) != Lookup(lb, k) then Lookup(b, k) else None);
  }

  /** With an ancestor per side, a key is in conflict in one order only in exactly one case. */
  lemma ConflictsDiffer(r: MergeResult, s: MergeResult, a: Body, b: Body, la: Body, lb: Body, k: string)
    requires IsResult(r, a, b, la, lb) && IsResult(s, b, a, lb, la)
    ensures k in KeysOf(r) && k !in KeysOf(s) <==> k in a && Lookup(a, k) == Lookup(b, k) == Lookup(lb, k) && k !in la
  {
    assert k in KeysOf(r) <==> OutcomeOf(a, b, la, lb, k).Conflict?;
    assert k in KeysOf(s) <==> OutcomeOf(b, a, lb, la, k).Conflict?;
  }

  /** Neither side changed the key, yet they differ. */
  ghost predicate Apart(a: Option<Val>, b: Option<Val>, la: Option<Val>, lb: Option<Val>) {
    a == la && b == lb && a != b
  }

  /** One side has the key from its ancestor, the other created the same value. */
  ghost predicate KnownToOne(a: Option<Val>, b: Option<Val>, la: Option<Val>, lb: Option<Val>) {
    a.Some? && a == b && ((b == lb && la.None?) || (a == la && lb.None?))
  }

  /** With an ancestor per side, a key comes out the same whichever document is first, but for two cases. */
  lemma OrderMatters(a: Option<Val>, b: Option<Val>, la: Option<Val>, lb: Option<Val>)
    ensures KeyOutcome(a, b, la, lb) != KeyOutcome(b, a, lb, la) <==> Apart(a, b, la, lb) || KnownToOne(a, b, la, lb)
  {
  }

  /** Two conflict-free merges with the sides swapped agree exactly when no key differs unchanged on both sides. */
  lemma SwappedMerges(r: MergeResult, s: MergeResult, a: Body, b: Body, la: Body, lb: Body)
    requires IsResult(r, a, b, la, lb) && IsResult(s, b, a, lb, la) && r.Merged? && s.Merged?
    ensures r == s <==> forall k :: !Apart(Lookup(a, k), Lookup(b, k), Lookup(la, k), Lookup(lb, k))
  {
    hide Lookup, IsResult;
    forall k
      ensures Lookup(r.body, k) == Lookup(s.body, k) <==> !Apart(Lookup(a, k), Lookup(b, k), Lookup(la, k), Lookup(lb, k))
    {
      OneKeySwapped(r, s, a, b, la, lb, k);
    }
    if forall k :: !Apart(Lookup(a, k), Lookup(b, k), Lookup(la, k), Lookup(lb, k)) {
      SameBody(r.body, s.body);
    }
  }

  lemma OneKeySwapped(r: MergeResult, s: MergeResult, a: Body, b: Body, la: Body, lb: Body, k: string)
    requires IsResult(r, a, b, la, lb) && IsResult(s, b, a, lb, la) && r.Merged? && s.Merged?
    ensures Lookup(r.body, k) == Lookup(s.body, k) <==> !Apart(Lookup(a, k), Lookup(b, k), Lookup(la, k), Lookup(lb, k))
  {
    assert OutcomeOf(a, b, la, lb, k) == Value(Lookup(r.body, k));
    assert OutcomeOf(b, a, lb, la, k) == Value(Lookup(s.body, k));
    OrderMatters(Lookup(a, k), Lookup(b, k), Lookup(la, k), Lookup(lb, k));
  }

  /** A side that has not changed is in conflict with nothing. */
  lemma UnchangedSide(a: Body, b: Body, l: Body, k: string)
    ensures a == l || b == l ==> !OutcomeOf(a, b, l, l, k).Conflict?
  {
  }
}
