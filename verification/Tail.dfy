/** A reader that keeps following a tree by reopening a stream after the last item it passed on. */
module Tail {
  import opened Items
  import opened Dag
  import opened Keys
  import opened Log
  import opened Tree
  import opened Stream

  /** `Stuck`: the stream failed on an unknown version and will not be reopened. */
  datatype Reader = Idle | Open(rest: seq<Item>) | Stuck

  function From(id: Option<Id>, first: Option<Version>, excludeFirst: bool): (o: Opts)
    ensures o.id == id && o.first == first && o.last.None? && o.excludeFirst == excludeFirst && !o.reverse && o.limit == 0
  {
    Opts(id, first, None, excludeFirst, false, false)
  }

  /** What the reader is to pass on, given the log. */
  ghost function Goal(log: seq<Item>, o: Opts): seq<Item> {
    Wanted(log, From(o.id, o.first, o.excludeFirst))
  }

  function Left(reader: Reader): seq<Item> {
    if reader.Open? then reader.rest else []
  }

  /** The reader resumes after the last item that was handed over, or nothing was. */
  predicate Settled(first: Option<Version>, handed: seq<Item>) {
    handed == [] || first == Some(handed[|handed| - 1].v)
  }

  /**
   * `seen` is the log at the last opening. What was passed on, what is handed over but not passed on,
   * and what is left are its wanted part, unless some opening came too early.
   */
  ghost predicate InStep(asked: Opts, log: seq<Item>, first: Option<Version>, excludeFirst: bool, reader: Reader,
                         started: bool, seen: seq<Item>, emitted: seq<Item>, buffer: seq<Item>, exact: bool) {
    && asked == From(asked.id, asked.first, asked.excludeFirst)
    && seen <= log
    && (if !started then
          && reader == Idle && first == asked.first && excludeFirst == asked.excludeFirst
          && emitted == [] && buffer == [] && seen == [] && exact
        else if reader == Stuck then
          emitted == [] && buffer == [] && exact && asked.first.Some? && !Has(seen, asked.first.value)
        else
          && (asked.first.Some? ==> Has(seen, asked.first.value))
          && excludeFirst
          && (exact ==> emitted + buffer + Left(reader) == Goal(seen, asked))
          && (forall it :: it in emitted || it in buffer || it in Left(reader) ==> it in seen)
          && first == if emitted == [] then asked.first else Some(emitted[|emitted| - 1].v))
  }

  class TailReader {
    const id: Option<Id>
    var first: Option<Version>
    var excludeFirst: bool
    var reader: Reader
    var buffer: seq<Item>
    ghost const asked: Opts
    ghost var started: bool
    ghost var seen: seq<Item>
    ghost var emitted: seq<Item>
    ghost var exact: bool          // every reopening came when the reader was settled

    constructor (id: Option<Id>, first: Option<Version>, excludeFirst: bool)
      ensures reader == Idle && !started && emitted == [] && seen == [] && buffer == [] && exact
      ensures this.id == id && this.first == first && this.excludeFirst == excludeFirst
      ensures asked == From(id, first, excludeFirst) && forall log :: Following(log)
    {
      this.id, this.first, this.excludeFirst := id, first, excludeFirst;
      this.asked := From(id, first, excludeFirst);
      reader, started, emitted, seen, buffer, exact := Idle, false, [], [], [], true;
    }

    /** The reader is following a tree whose log is `log`. */
    ghost predicate Following(log: seq<Item>)
      reads this
    {
      id == asked.id && InStep(asked, log, first, excludeFirst, reader, started, seen, emitted, buffer, exact)
    }

    /**
     * Open a stream after the last item passed on. What has been handed over, followed by the new
     * stream, is what is wanted exactly when the last item handed over has been passed on too.
     */
    method SetupReader(tree: Tree)
      requires tree.Valid() && Following(tree.log) && reader == Idle
      requires id.Some? ==> NullFree(id.value.bytes)
      requires asked.first.Some? ==> |asked.first.value.bytes| == tree.c.vSize
      modifies this
      ensures Following(tree.log) && started && seen == tree.log && emitted == old(emitted) && buffer == old(buffer)
      ensures reader != Idle && exact == (old(exact) && (!old(started) || Settled(old(first), old(emitted + buffer))))
      ensures reader == Stuck <==> !old(started) && asked.first.Some? && !Has(tree.log, asked.first.value)
      ensures old(exact) && reader.Open? ==> (exact <==> emitted + buffer + reader.rest == Goal(tree.log, asked))
    {
      hide Sound, Wanted, InStep, WF, Has, Settled, NullFree, Goal, From, Left;
      ghost var log := tree.log;
      SoundOk(tree.c, tree.store.m, log, tree.us);
      Reopens(tree.c, log, asked, first, excludeFirst, started, seen, emitted, buffer, exact);
      var r := OpenStream(tree);
      Opened(tree.c, log, asked, first, excludeFirst, started, seen, emitted, buffer, exact, r);
      exact := exact && (!started || Settled(first, emitted + buffer));
      excludeFirst, reader, started, seen := true, r, true, log;
    }

    /** A stream of what comes from `first` on; an unknown version is an error that nothing follows. */
    method OpenStream(tree: Tree) returns (r: Reader)
      requires tree.Valid() && (id.Some? ==> NullFree(id.value.bytes)) && (first.Some? ==> |first.value.bytes| == tree.c.vSize)
      ensures r == if first.Some? && !Has(tree.log, first.value) then Stuck
                   else Open(Wanted(tree.log, From(id, first, excludeFirst)))
    {
      hide Sound, Wanted, Has;
      var items := ReadStream(tree, From(id, first, excludeFirst));
      r := if items.Some? then Open(items.value) else Stuck;
    }

    /** The open stream hands its next item over. */
    method HandOver(ghost log: seq<Item>)
      requires Following(log) && reader.Open? && reader.rest != []
      modifies this`reader, this`buffer
      ensures Following(log) && buffer + Left(reader) == old(buffer + Left(reader)) && |Left(reader)| + 1 == |old(Left(reader))|
    {
      hide Goal;
      ghost var all := emitted + buffer + reader.rest;
      assert reader.rest == [reader.rest[0]] + reader.rest[1..];
      assert buffer + [reader.rest[0]] + reader.rest[1..] == buffer + reader.rest;
      assert emitted + (buffer + [reader.rest[0]]) + reader.rest[1..] == all;
      buffer := buffer + [reader.rest[0]];
      reader := Open(reader.rest[1..]);
    }

    /** Pass on the next item that was handed over, and remember where to go on. */
    method Emit(ghost log: seq<Item>) returns (item: Item)
      requires Following(log) && buffer != []
      modifies this`first, this`buffer, this`emitted
      ensures Following(log) && emitted == old(emitted) + [item] && [item] + buffer == old(buffer)
    {
      hide Goal;
      item := buffer[0];
      first := Some(item.v);
      assert buffer == [item] + buffer[1..];
      assert emitted + buffer + Left(reader) == emitted + [item] + buffer[1..] + Left(reader);
      buffer := buffer[1..];
      emitted := emitted + [item];
    }

    /** The open stream has ended, whether or not all it handed over is passed on; the next opening is scheduled. */
    method End(ghost log: seq<Item>)
      requires Following(log) && reader == Open([])
      modifies this`reader
      ensures Following(log) && reader == Idle && (exact ==> emitted + buffer == Goal(seen, asked))
    {
      assert emitted + buffer + [] == emitted + buffer;
      reader := Idle;
    }

    /**
     * Whatever is written in the meantime, the reader is still following; and if it never reopened
     * too early, it has passed on a prefix of what is wanted: each item once and in order.
     */
    lemma WritesKeepFollowing(c: Conf, log: seq<Item>, log': seq<Item>)
      requires Following(log) && log <= log' && WF(c, log')
      ensures Following(log')
      ensures reader != Stuck && exact ==> emitted <= Goal(log', asked)
    {
      hide Goal, WF, Has;
      if started && reader != Stuck && exact {
        GoalGrows(c, seen, log', asked);
        StartsWith(emitted, buffer, Left(reader), Goal(seen, asked), Goal(log', asked));
      }
    }
  }

  lemma {:induction false} PositionsGrow(log: seq<Item>, log': seq<Item>, a: nat, b: nat, id: Option<Id>)
    requires log <= log' && b <= |log|
    ensures Positions(log, a, b, id) == Positions(log', a, b, id)
    decreases b
  {
    if b > a {
      PositionsGrow(log, log', a, b - 1, id);
    }
  }

  lemma {:induction false} PositionsSplit(log: seq<Item>, a: nat, m: nat, b: nat, id: Option<Id>)
    requires a <= m <= b <= |log|
    ensures Positions(log, a, b, id) == Positions(log, a, m, id) + Positions(log, m, b, id)
    decreases b
  {
    if m < b {
      PositionsSplit(log, a, m, b - 1, id);
    }
  }

  lemma PosKeeps(log: seq<Item>, log': seq<Item>, v: Version)
    requires log <= log' && Distinct(log') && Has(log, v)
    ensures Pos(log', v) == Pos(log, v) < |log| && Has(log', v)
  {
    PosIs(log, v);
    PosIs(log', v);
    var k :| 0 <= k < |log| && log[k].v == v;
    assert log'[k].v == v;
  }

  /** The items with the wanted id from position `a` on. */
  ghost function Rest(log: seq<Item>, a: nat, id: Option<Id>): seq<Item> {
    Slice(log, Positions(log, a, |log|, id))
  }

  lemma GoalIsRest(log: seq<Item>, o: Opts)
    ensures Goal(log, o) == Rest(log, StartOf(log, From(o.id, o.first, o.excludeFirst)), o.id)
  {
  }

  /** The start of a stream does not move while the log grows. */
  lemma StartKeeps(c: Conf, log: seq<Item>, log': seq<Item>, f: Opts)
    requires log <= log' && WF(c, log') && (f.first.Some? ==> Has(log, f.first.value))
    ensures StartOf(log, f) == StartOf(log', f) <= |log|
    ensures f.first.Some? ==> Pos(log, f.first.value) < |log| && Has(log', f.first.value)
  {
    if f.first.Some? { PosKeeps(log, log', f.first.value); }
  }

  /** From `a` on, the grown log has what the log had, then what comes after. */
  lemma RestGrows(log: seq<Item>, log': seq<Item>, a: nat, id: Option<Id>)
    requires log <= log' && a <= |log|
    ensures Rest(log', a, id) == Rest(log, a, id) + Rest(log', |log|, id)
  {
    hide Positions, Slice;
    PositionsSplit(log', a, |log|, |log'|, id);
    PositionsGrow(log, log', a, |log|, id);
    var ps, qs := Positions(log, a, |log|, id), Positions(log', |log|, |log'|, id);
    SliceSplits(log, log', ps, qs);
  }

  lemma SliceSplits(log: seq<Item>, log': seq<Item>, ps: seq<nat>, qs: seq<nat>)
    requires log <= log' && (forall j :: 0 <= j < |ps| ==> ps[j] < |log|) && forall j :: 0 <= j < |qs| ==> qs[j] < |log'|
    ensures Slice(log', ps + qs) == Slice(log, ps) + Slice(log', qs)
  {
    assert forall j :: 0 <= j < |ps| ==> log'[ps[j]] == log[ps[j]];
  }

  lemma GoalGrows(c: Conf, log: seq<Item>, log': seq<Item>, o: Opts)
    requires log <= log' && WF(c, log') && (o.first.Some? ==> Has(log, o.first.value))
    ensures Goal(log, o) <= Goal(log', o)
  {
    hide Goal, Rest, WF, StartOf, Has, Pos;
    var f := From(o.id, o.first, o.excludeFirst);
    GoalIsRest(log, o);
    GoalIsRest(log', o);
    StartKeeps(c, log, log', f);
    RestGrows(log, log', StartOf(log, f), o.id);
  }

  lemma NoneAbove(log: seq<Item>, a: nat, id: Option<Id>)
    requires a <= |log| && Positions(log, a, |log|, id) != []
    ensures var ps := Positions(log, a, |log|, id);
      ps[|ps| - 1] < |log| && Positions(log, ps[|ps| - 1] + 1, |log|, id) == []
  {
    hide Positions;
    var ps := Positions(log, a, |log|, id);
    PositionsAre(log, a, |log|, id);
    var p := ps[|ps| - 1];
    assert p in ps;
    forall q: nat | q in ps ensures q <= p {
      var j :| 0 <= j < |ps| && ps[j] == q;
    }
    assert forall q: nat :: p < q < |log| ==> q !in ps;
    NoneMatch(log, p + 1, |log|, id);
  }

  lemma {:induction false} NoneMatch(log: seq<Item>, a: nat, b: nat, id: Option<Id>)
    requires b <= |log| && forall q: nat :: a <= q < b ==> !Matches(id, log[q])
    ensures Positions(log, a, b, id) == []
    decreases b
  {
    if a < b {
      NoneMatch(log, a, b - 1, id);
    }
  }

  /** Nothing is wanted between the last wanted item and the end of the log. */
  lemma AfterLast(log: seq<Item>, a: nat, id: Option<Id>) returns (p: nat)
    requires a <= |log| && Rest(log, a, id) != []
    ensures p < |log| && Rest(log, a, id)[|Rest(log, a, id)| - 1] == log[p]
    ensures Rest(log, p + 1, id) == []
  {
    hide Positions;
    var ps := Positions(log, a, |log|, id);
    p := ps[|ps| - 1];
    NoneAbove(log, a, id);
  }

  lemma GoalIs(log: seq<Item>, o: Opts)
    ensures Goal(log, o) == Wanted(log, From(o.id, o.first, o.excludeFirst))
    ensures [] + Goal(log, o) == Goal(log, o)
  {
  }

  /** The version a reader resumes after is still there. */
  lemma Reopens(c: Conf, log: seq<Item>, asked: Opts, first: Option<Version>, excludeFirst: bool,
                started: bool, seen: seq<Item>, emitted: seq<Item>, buffer: seq<Item>, exact: bool)
    requires InStep(asked, log, first, excludeFirst, Idle, started, seen, emitted, buffer, exact) && WF(c, log)
    requires asked.first.Some? ==> |asked.first.value.bytes| == c.vSize
    ensures first.Some? ==> |first.value.bytes| == c.vSize
    ensures started ==> (first.Some? ==> Has(log, first.value)) && (asked.first.Some? ==> Has(log, asked.first.value))
    ensures started ==> forall it :: it in emitted || it in buffer ==> it in log
    ensures !started ==> first == asked.first
  {
    hide WF, Goal;
    if started {
      HasGrows(seen, log, asked.first);
      forall it | it in seen ensures it in log && Has(log, it.v) {
        var k :| 0 <= k < |seen| && seen[k] == it;
        assert log[k] == it;
      }
      if emitted != [] { assert emitted[|emitted| - 1] in emitted; }
      if first.Some? { VersionSize(c, log, first.value); }
    }
  }

  /** What is known once the stream has been opened. */
  lemma Opened(c: Conf, log: seq<Item>, asked: Opts, first: Option<Version>, excludeFirst: bool,
               started: bool, seen: seq<Item>, emitted: seq<Item>, buffer: seq<Item>, exact: bool, reader: Reader)
    requires InStep(asked, log, first, excludeFirst, Idle, started, seen, emitted, buffer, exact) && WF(c, log)
    requires asked.first.Some? ==> |asked.first.value.bytes| == c.vSize
    requires reader == if first.Some? && !Has(log, first.value) then Stuck
                       else Open(Wanted(log, From(asked.id, first, excludeFirst)))
    ensures var exact' := exact && (!started || Settled(first, emitted + buffer));
      && InStep(asked, log, first, true, reader, true, log, emitted, buffer, exact')
      && (exact && reader.Open? ==> (exact' <==> emitted + buffer + reader.rest == Goal(log, asked)))
    ensures reader == Stuck <==> !started && asked.first.Some? && !Has(log, asked.first.value)
  {
    hide WF, Wanted, Has, Settled;
    Reopens(c, log, asked, first, excludeFirst, started, seen, emitted, buffer, exact);
    WantedIn(log, From(asked.id, first, excludeFirst));
    GoalIs(log, asked);
    if started && exact {
      Again(c, seen, log, asked, first, emitted, buffer);
    }
    hide Goal;
  }

  lemma StartsWith(a: seq<Item>, b: seq<Item>, d: seq<Item>, s: seq<Item>, t: seq<Item>)
    requires a + b + d == s && s <= t
    ensures a <= t
  {
    assert a + b + d == a + (b + d);
  }

  lemma WantedIn(log: seq<Item>, o: Opts)
    ensures forall it :: it in Wanted(log, o) ==> it in log
  {
  }

  /** Reopening is exact if the reader is settled, and otherwise hands some item over again. */
  lemma Again(c: Conf, log: seq<Item>, log': seq<Item>, o: Opts, first: Option<Version>,
              emitted: seq<Item>, buffer: seq<Item>)
    requires log <= log' && WF(c, log') && (o.first.Some? ==> Has(log, o.first.value))
    requires emitted + buffer + [] == Goal(log, o)
    requires first == (if emitted == [] then o.first else Some(emitted[|emitted| - 1].v))
    ensures Settled(first, emitted + buffer) <==> emitted + buffer + Wanted(log', From(o.id, first, true)) == Goal(log', o)
  {
    hide Goal, WF, Wanted;
    var handed := emitted + buffer;
    assert handed + [] == handed;
    if Settled(first, handed) {
      Resume(c, log, log', o, handed);
      assert first == if handed == [] then o.first else Some(handed[|handed| - 1].v);
    } else {
      HandsAgain(c, log, log', o, first, emitted, buffer);
    }
  }

  /** A reader that resumes before the last item handed over gets that item again. */
  lemma HandsAgain(c: Conf, log: seq<Item>, log': seq<Item>, o: Opts, first: Option<Version>,
                   emitted: seq<Item>, buffer: seq<Item>)
    requires log <= log' && WF(c, log') && (o.first.Some? ==> Has(log, o.first.value))
    requires emitted + buffer == Goal(log, o) && !Settled(first, emitted + buffer)
    requires first == (if emitted == [] then o.first else Some(emitted[|emitted| - 1].v))
    ensures |emitted + buffer| + |Wanted(log', From(o.id, first, true))| > |Goal(log', o)|
  {
    hide WF, Goal, Wanted, Rest, Has, Pos, StartOf;
    var f, g := From(o.id, o.first, o.excludeFirst), From(o.id, first, true);
    var a, b := StartOf(log, f), StartOf(log', g);
    GoalIsRest(log, o);
    GoalIsRest(log', o);
    GoalIsRest(log', g);
    GoalIs(log', g);
    StartKeeps(c, log, log', f);
    RestGrows(log, log', a, o.id);
    var p := ResumesBehind(c, log, log', o, a, first, emitted, buffer);
    RestGrows(log, log', b, o.id);
    RestHas(log, b, p, o.id);
  }

  lemma RestHas(log: seq<Item>, b: nat, p: nat, id: Option<Id>)
    requires b <= p < |log| && Matches(id, log[p])
    ensures |Rest(log, b, id)| > 0
  {
    PositionsAre(log, b, |log|, id);
    assert p in Positions(log, b, |log|, id);
  }

  lemma RestAt(log: seq<Item>, a: nat, id: Option<Id>) returns (ps: seq<nat>)
    requires a <= |log|
    ensures |ps| == |Rest(log, a, id)| && forall j :: 0 <= j < |ps| ==> a <= ps[j] < |log| && Rest(log, a, id)[j] == log[ps[j]]
    ensures forall j :: 0 <= j < |ps| ==> Matches(id, log[ps[j]])
    ensures forall i, j :: 0 <= i < j < |ps| ==> ps[i] < ps[j]
  {
    hide Matches, Positions;
    ps := Positions(log, a, |log|, id);
    PositionsAre(log, a, |log|, id);
  }

  /** Unless it is settled, the reader resumes at or before the last item handed over. */
  lemma ResumesBehind(c: Conf, log: seq<Item>, log': seq<Item>, o: Opts, a: nat, first: Option<Version>,
                      emitted: seq<Item>, buffer: seq<Item>) returns (p: nat)
    requires log <= log' && WF(c, log') && (o.first.Some? ==> Has(log, o.first.value)) && a <= |log|
    requires emitted + buffer == Rest(log, a, o.id) && !Settled(first, emitted + buffer)
    requires a == StartOf(log, From(o.id, o.first, o.excludeFirst))
    requires first == (if emitted == [] then o.first else Some(emitted[|emitted| - 1].v))
    ensures StartOf(log', From(o.id, first, true)) <= p < |log| && Matches(o.id, log[p])
  {
    hide Positions, WF, Has, Pos, Matches, Distinct, Rest;
    var handed := emitted + buffer;
    var ps := RestAt(log, a, o.id);
    p := ps[|ps| - 1];
    if emitted != [] {
      var m := |emitted| - 1;
      assert handed[m] == emitted[m] && m < |ps| - 1;
      PosOf(c, log, log', ps[m]);
    } else if o.first.Some? {
      DistinctLog(c, log');
      PosKeeps(log, log', o.first.value);
      PosIs(log, o.first.value);
    }
  }

  lemma DistinctLog(c: Conf, log: seq<Item>)
    requires WF(c, log)
    ensures Distinct(log)
  {
  }

  /** A stored item is at the position of its version, now and later. */
  lemma PosOf(c: Conf, log: seq<Item>, log': seq<Item>, k: nat)
    requires log <= log' && WF(c, log') && k < |log|
    ensures Pos(log', log[k].v) == k
  {
    PosIs(log', log[k].v);
    assert log'[k] == log[k];
  }

  lemma VersionSize(c: Conf, log: seq<Item>, v: Version)
    requires WF(c, log) && Has(log, v)
    ensures |v.bytes| == c.vSize
  {
    var k :| 0 <= k < |log| && log[k].v == v;
    assert Fitting(c, log[k]);
  }

  lemma HasGrows(log: seq<Item>, log': seq<Item>, v: Option<Version>)
    requires log <= log'
    ensures v.Some? && Has(log, v.value) ==> Has(log', v.value)
  {
    if v.Some? && Has(log, v.value) {
      var k :| 0 <= k < |log| && log[k].v == v.value;
      assert log'[k].v == v.value;
    }
  }

  /** Reopening after the last item passed on yields exactly the wanted items not passed on yet. */
  lemma Resume(c: Conf, log: seq<Item>, log': seq<Item>, o: Opts, emitted: seq<Item>)
    requires log <= log' && WF(c, log') && (o.first.Some? ==> Has(log, o.first.value)) && emitted == Goal(log, o)
    ensures var first := if emitted == [] then o.first else Some(emitted[|emitted| - 1].v);
      && (first.Some? ==> Has(log', first.value))
      && emitted + Wanted(log', From(o.id, first, true)) == Goal(log', o)
  {
    hide Goal, Rest, WF, Has, Pos;
    var f := From(o.id, o.first, o.excludeFirst);
    var a := StartOf(log, f);
    GoalIsRest(log, o);
    GoalIsRest(log', o);
    StartKeeps(c, log, log', f);
    RestGrows(log, log', a, o.id);
    if emitted == [] {
      EmptyStart(log, log', o, a);
    } else {
      var p := AfterLast(log, a, o.id);
      After(c, log, log', o.id, p);
    }
  }

  lemma After(c: Conf, log: seq<Item>, log': seq<Item>, id: Option<Id>, p: nat)
    requires log <= log' && WF(c, log') && p < |log| && Rest(log, p + 1, id) == []
    ensures Has(log', log[p].v) && Wanted(log', From(id, Some(log[p].v), true)) == Rest(log', |log|, id)
  {
    hide WF, Rest, Pos, Wanted;
    assert log'[p].v == log[p].v;
    PosOf(c, log, log', p);
    GoalIs(log', From(id, Some(log[p].v), true));
    RestGrows(log, log', p + 1, id);
    GoalIsRest(log', From(id, Some(log[p].v), true));
  }

  /** If nothing was wanted so far, it does not matter whether the start itself is excluded. */
  lemma EmptyStart(log: seq<Item>, log': seq<Item>, o: Opts, a: nat)
    requires log <= log' && a == StartOf(log', From(o.id, o.first, o.excludeFirst)) <= |log| && Rest(log, a, o.id) == []
    requires o.first.Some? ==> Pos(log', o.first.value) < |log|
    ensures Wanted(log', From(o.id, o.first, true)) == Goal(log', o)
  {
    hide Rest, Goal, Wanted, Pos;
    GoalIs(log', From(o.id, o.first, true));
    GoalIsRest(log', From(o.id, o.first, true));
    GoalIsRest(log', o);
    if o.first.Some? && !o.excludeFirst {
      RestSkip(log', log, a, o.id);
    }
  }

  lemma RestSkip(log': seq<Item>, log: seq<Item>, a: nat, id: Option<Id>)
    requires log <= log' && a < |log| && Rest(log, a, id) == []
    ensures Rest(log', a, id) == Rest(log', a + 1, id)
  {
    hide Positions;
    PositionsAre(log, a, |log|, id);
    assert a !in Positions(log, a, |log|, id);
    OnePosition(log', a, id);
    PositionsSplit(log', a, a + 1, |log'|, id);
  }

  lemma OnePosition(log: seq<Item>, a: nat, id: Option<Id>)
    requires a < |log| && !Matches(id, log[a])
    ensures Positions(log, a, a + 1, id) == []
  {
  }
}
