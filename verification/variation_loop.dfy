/** The multi-variation driver: wires every variation to the input and to the
    nominal variation, then runs all of them over the record stream, one
    record at a time, in the phases reset, process, accept. */
module VariationLoop {
  import opened Values
  import opened Variations

  /** Records between two progress reports; the entry limit is only checked
      at these boundaries. */
  const StatusInterval: nat := 5000

  /** All indices refer to existing variations. */
  predicate Refs(w: World, vs: seq<nat>) {
    forall p | 0 <= p < |vs| :: vs[p] < |w.variations|
  }

  predicate NominalRef(w: World, nominal: Option<nat>) {
    nominal.Some? ==> nominal.value < |w.variations|
  }

  // ---------------------------------------------------------------------------
  // Setup

  /** Replacing one variation by one that fits keeps the world well formed. */
  lemma UpdateKeepsWellFormed(w: World, w': World, i: nat)
    requires WellFormed(w) && i < |w.variations|
    requires |w'.variations| == |w.variations| && |w'.sources| == |w.sources|
    requires forall k | 0 <= k < |w.variations| && k != i :: w'.variations[k] == w.variations[k]
    requires Fits(w'.variations[i], |w.variations|, |w.sources|)
    ensures WellFormed(w')
  {
    forall k | 0 <= k < |w'.variations| ensures Fits(w'.variations[k], |w'.variations|, |w'.sources|) {
      if k != i {
        assert Fits(w.variations[k], |w.variations|, |w.sources|);
      }
    }
  }

  /** What the setup loop does to one listed variation `k`. */
  function Rewire(v: Variation, k: nat, nominal: Option<nat>, input: nat): Variation {
    v.(source := Some(input), fallback := if nominal == Some(k) then v.fallback else nominal)
  }

  /** The first loop of `run`: each listed variation reads from the input and
      falls back on the nominal one (so the nominal variation, if listed,
      keeps its own fallback, and with no nominal every fallback is cleared).
      Listing a variation twice changes nothing. */
  function Wire(w: World, vs: seq<nat>, nominal: Option<nat>, input: nat): (w': World)
    requires WellFormed(w) && Refs(w, vs) && NominalRef(w, nominal) && input < |w.sources|
    ensures WellFormed(w')
    ensures |w'.variations| == |w.variations| && w'.sources == w.sources && w'.trace == w.trace
    ensures forall k | 0 <= k < |w.variations| ::
      w'.variations[k] == if k in vs then Rewire(w.variations[k], k, nominal, input) else w.variations[k]
    decreases |vs|
  {
    if |vs| == 0 then w
    else
      var k := vs[0];
      var w1 := SetFallback(SetSource(w, k, Some(input)), k, nominal);
      assert w1.variations[k] == Rewire(w.variations[k], k, nominal, input);
      assert Fits(w.variations[k], |w.variations|, |w.sources|);
      UpdateKeepsWellFormed(w, w1, k);
      var w' := Wire(w1, vs[1..], nominal, input);
      assert forall j | 0 <= j < |w.variations| ::
        w'.variations[j] == if j in vs then Rewire(w.variations[j], j, nominal, input) else w.variations[j]
      by {
        forall j | 0 <= j < |w.variations|
          ensures w'.variations[j] == if j in vs then Rewire(w.variations[j], j, nominal, input) else w.variations[j]
        {
          if j in vs[1..] {
            assert j in vs;
          } else if j == k {
            assert j in vs;
          }
        }
      }
      w'
  }

  /** `run`'s setup: wire the listed variations, then, when a nominal
      variation is given and not listed, bind it to the input and append it
      to the list. Returns the world and the full list of variations. */
  function Setup(w: World, vs: seq<nat>, nominal: Option<nat>, input: nat): (res: (World, seq<nat>))
    requires WellFormed(w) && Refs(w, vs) && NominalRef(w, nominal) && input < |w.sources|
    ensures WellFormed(res.0) && Refs(res.0, res.1)
    ensures |res.0.variations| == |w.variations| && res.0.sources == w.sources && res.0.trace == w.trace
    ensures res.1 == if nominal.Some? && nominal.value !in vs then vs + [nominal.value] else vs
    ensures forall k | k in res.1 :: res.0.variations[k].source == Some(input)
    ensures forall k | k in vs && Some(k) != nominal :: res.0.variations[k].fallback == nominal
    ensures nominal.Some? ==> res.0.variations[nominal.value].fallback == w.variations[nominal.value].fallback
    ensures forall k | 0 <= k < |w.variations| && k !in res.1 :: res.0.variations[k] == w.variations[k]
    ensures forall k | 0 <= k < |w.variations| ::
      res.0.variations[k]
        == w.variations[k].(source := res.0.variations[k].source, fallback := res.0.variations[k].fallback)
  {
    var w1 := Wire(w, vs, nominal, input);
    if nominal.Some? && nominal.value !in vs then
      var n := nominal.value;
      var w2 := SetSource(w1, n, Some(input));
      assert Fits(w1.variations[n], |w1.variations|, |w1.sources|);
      UpdateKeepsWellFormed(w1, w2, n);
      (w2, vs + [n])
    else (w1, vs)
  }

  // ---------------------------------------------------------------------------
  // One record

  /** The reset phase: every listed variation is reset before any of them
      processes the record. */
  function ResetAll(w: World, order: seq<nat>): (w': World)
    requires WellFormed(w) && Refs(w, order)
    ensures WellFormed(w')
    ensures |w'.variations| == |w.variations| && w'.sources == w.sources && w'.trace == w.trace
    ensures forall k | 0 <= k < |w.variations| ::
      w'.variations[k] == if k in order then w.variations[k].(cache := map[], valid := false) else w.variations[k]
    decreases |order|
  {
    if |order| == 0 then w
    else
      var w1 := Reset(w, order[0]);
      assert forall j | 0 <= j < |w.variations| && j in order[1..] :: j in order;
      assert forall j | 0 <= j < |w.variations| && j in order && j !in order[1..] :: j == order[0];
      ResetAll(w1, order[1..])
  }

  /** How one variation's process function ended for the current record. */
  datatype Verdict = Completed | CutAway | Aborted(error: Error)

  /** Calls the process function of variation `k`: a skip (failed cut) is
      caught, everything else that escapes (a defer signal, a KeyError, any
      other error, or a missing process function) aborts the run. */
  function ProcessOne(w: World, k: nat, fuel: nat): (res: (World, Verdict))
    requires WellFormed(w) && k < |w.variations|
    ensures WellFormed(res.0) && Evolves(w, res.0)
    ensures w.variations[k].process.None? ==> res.0 == w && res.1 == Aborted(NotCallable)
    ensures w.variations[k].process.Some? ==>
      var (w', o) := Exec(w, k, w.variations[k].process.value, fuel);
      && res.0 == w'
      && (res.1 == Completed <==> o.Returned?)
      && (res.1 == CutAway <==> o == SkipSignal)
      && (o == DeferSignal ==> res.1 == Aborted(UncaughtFallback))
      && (o == KeyErrorSignal ==> res.1 == Aborted(UncaughtKeyError))
      && (o.Raised? ==> res.1 == Aborted(o.error))
  {
    match w.variations[k].process
    case None =>
      assert Evolves(w, w) by {
        forall j: nat ensures EvolvesAt(w, w, j) {}
        forall t: nat ensures FreshAt(w, w, t) {}
      }
      (w, Aborted(NotCallable))
    case Some(p) =>
      var (w1, o) := Exec(w, k, p, fuel);
      match o
      case Returned(_) => (w1, Completed)
      case SkipSignal => (w1, CutAway)
      case DeferSignal => (w1, Aborted(UncaughtFallback))
      case KeyErrorSignal => (w1, Aborted(UncaughtKeyError))
      case Raised(e) => (w1, Aborted(e))
  }

  /** The result of the process phase: the world, one pass flag per variation
      processed, and the error that aborted the phase, if any. */
  datatype Phase = Phase(world: World, passed: seq<bool>, error: Option<Error>)

  /** Variation `v` passed: some position of `order` holding it completed. */
  predicate PassedAt(order: seq<nat>, passed: seq<bool>, v: nat)
    requires |passed| <= |order|
  {
    exists p | 0 <= p < |passed| :: order[p] == v && passed[p]
  }

  /** Splitting off the first processed variation. */
  lemma PassedAtCons(order: seq<nat>, b: bool, rest: seq<bool>, v: nat)
    requires 0 < |order| && |rest| < |order|
    ensures PassedAt(order, [b] + rest, v) == ((b && order[0] == v) || PassedAt(order[1..], rest, v))
  {
    var passed := [b] + rest;
    if PassedAt(order, passed, v) && !(b && order[0] == v) {
      var p :| 0 <= p < |passed| && order[p] == v && passed[p];
      assert order[1..][p - 1] == v && rest[p - 1];
    }
    if PassedAt(order[1..], rest, v) {
      var p :| 0 <= p < |rest| && order[1..][p] == v && rest[p];
      assert order[p + 1] == v && passed[p + 1];
    }
    if b && order[0] == v {
      assert passed[0];
    }
  }

  /** Evaluation never changes a validity flag. */
  lemma EvolvesKeepsValid(w: World, w': World)
    requires Evolves(w, w')
    ensures forall v | 0 <= v < |w.variations| :: w'.variations[v].valid == w.variations[v].valid
  {
    forall v | 0 <= v < |w.variations| ensures w'.variations[v].valid == w.variations[v].valid {
      assert EvolvesAt(w, w', v);
    }
  }

  /** The world after variation `k` has processed the record: what its
      process function did, and its validity flag set if it completed. */
  function Advance(w: World, k: nat, fuel: nat): (w': World)
    requires WellFormed(w) && k < |w.variations|
    ensures WellFormed(w') && |w'.variations| == |w.variations| && w'.sources == w.sources
  {
    var (w1, verdict) := ProcessOne(w, k, fuel);
    if verdict == Completed then
      var w2 := SetValid(w1, k, true);
      assert Fits(w1.variations[k], |w1.variations|, |w1.sources|);
      UpdateKeepsWellFormed(w1, w2, k);
      w2
    else w1
  }

  /** Processing sets exactly the flag of a variation that completed. */
  lemma AdvanceValidity(w: World, k: nat, fuel: nat)
    requires WellFormed(w) && k < |w.variations|
    ensures forall v | 0 <= v < |w.variations| ::
      Advance(w, k, fuel).variations[v].valid
        == (w.variations[v].valid || (v == k && ProcessOne(w, k, fuel).1 == Completed))
  {
    EvolvesKeepsValid(w, ProcessOne(w, k, fuel).0);
  }

  /** The process phase: every variation in order, until one aborts. */
  function ProcessAll(w: World, order: seq<nat>, fuel: nat): (r: Phase)
    requires WellFormed(w) && Refs(w, order)
    ensures WellFormed(r.world)
    ensures |r.world.variations| == |w.variations| && r.world.sources == w.sources
    ensures r.error.None? ==> |r.passed| == |order|
    ensures r.error.Some? ==> |r.passed| < |order|
    decreases |order|
  {
    if |order| == 0 then Phase(w, [], None)
    else
      var (w1, verdict) := ProcessOne(w, order[0], fuel);
      if verdict.Aborted? then Phase(w1, [], Some(verdict.error))
      else
        var a := Advance(w, order[0], fuel);
        assert Refs(a, order[1..]);
        var rest := ProcessAll(a, order[1..], fuel);
        Phase(rest.world, [verdict == Completed] + rest.passed, rest.error)
  }

  /** A skipped variation is left invalid and a completed one is set valid:
      after the phase, a variation is valid iff it was before or some
      position holding it completed. */
  lemma {:induction false} ProcessAllValidity(w: World, order: seq<nat>, fuel: nat)
    requires WellFormed(w) && Refs(w, order)
    ensures var r := ProcessAll(w, order, fuel);
      forall v | 0 <= v < |w.variations| ::
        r.world.variations[v].valid == (w.variations[v].valid || PassedAt(order, r.passed, v))
    decreases |order|
  {
    if |order| > 0 {
      var k := order[0];
      var (w1, verdict) := ProcessOne(w, k, fuel);
      if verdict.Aborted? {
        EvolvesKeepsValid(w, w1);
      } else {
        var a := Advance(w, k, fuel);
        AdvanceValidity(w, k, fuel);
        assert Refs(a, order[1..]);
        ProcessAllValidity(a, order[1..], fuel);
        var rest := ProcessAll(a, order[1..], fuel);
        var r := ProcessAll(w, order, fuel);
        assert r.passed == [verdict == Completed] + rest.passed;
        forall v | 0 <= v < |w.variations|
          ensures r.world.variations[v].valid == (w.variations[v].valid || PassedAt(order, r.passed, v))
        {
          PassedAtCons(order, verdict == Completed, rest.passed, v);
        }
      }
    }
  }

  /** The world in which the variation at position `p` of `order` starts
      processing, when none of the earlier ones aborted. */
  function WorldBefore(w: World, order: seq<nat>, p: nat, fuel: nat): (w': World)
    requires WellFormed(w) && Refs(w, order) && p <= |order|
    ensures WellFormed(w') && |w'.variations| == |w.variations| && w'.sources == w.sources
    decreases p
  {
    if p == 0 then w
    else
      var a := Advance(w, order[0], fuel);
      assert Refs(a, order[1..]);
      WorldBefore(a, order[1..], p - 1, fuel)
  }

  /** Position `p` of `order` starts in the world the first `p` variations
      left, seen from the second position on. */
  lemma WorldBeforeShift(w: World, order: seq<nat>, p: nat, fuel: nat)
    requires WellFormed(w) && Refs(w, order) && 0 < p <= |order|
    ensures Refs(Advance(w, order[0], fuel), order[1..])
    ensures WorldBefore(w, order, p, fuel) == WorldBefore(Advance(w, order[0], fuel), order[1..], p - 1, fuel)
  {
  }

  /** The process phase after a first variation that did not abort. */
  lemma ProcessAllCons(w: World, order: seq<nat>, fuel: nat)
    requires WellFormed(w) && Refs(w, order) && |order| > 0
    requires !ProcessOne(w, order[0], fuel).1.Aborted?
    ensures Refs(Advance(w, order[0], fuel), order[1..])
    ensures var rest := ProcessAll(Advance(w, order[0], fuel), order[1..], fuel);
      var r := ProcessAll(w, order, fuel);
      && r.world == rest.world && r.error == rest.error
      && r.passed == [ProcessOne(w, order[0], fuel).1 == Completed] + rest.passed
  {
  }

  /** The verdict at position `p` is the verdict at position `p - 1` of the
      rest of the list, run from the world the first variation left. */
  lemma VerdictShift(w: World, order: seq<nat>, p: nat, fuel: nat)
    requires WellFormed(w) && Refs(w, order) && 0 < p < |order|
    ensures Refs(Advance(w, order[0], fuel), order[1..])
    ensures ProcessOne(WorldBefore(w, order, p, fuel), order[p], fuel)
         == ProcessOne(WorldBefore(Advance(w, order[0], fuel), order[1..], p - 1, fuel), order[1..][p - 1], fuel)
  {
    WorldBeforeShift(w, order, p, fuel);
    assert order[p] == order[1..][p - 1];
  }

  /** Every position of the process phase: the pass flag at position `p` is
      the verdict of the process function of `order[p]`, run in the world the
      earlier ones left, and no earlier one aborted; a skip does not stop the
      later variations. */
  lemma {:induction false} ProcessAllPositions(w: World, order: seq<nat>, fuel: nat)
    requires WellFormed(w) && Refs(w, order)
    ensures var r := ProcessAll(w, order, fuel);
      forall p | 0 <= p < |r.passed| ::
        var verdict := ProcessOne(WorldBefore(w, order, p, fuel), order[p], fuel).1;
        !verdict.Aborted? && (r.passed[p] <==> verdict == Completed)
    decreases |order|
  {
    var r := ProcessAll(w, order, fuel);
    if |order| > 0 && !ProcessOne(w, order[0], fuel).1.Aborted? {
      var a := Advance(w, order[0], fuel);
      ProcessAllCons(w, order, fuel);
      var rest := ProcessAll(a, order[1..], fuel);
      ProcessAllPositions(a, order[1..], fuel);
      forall p | 0 < p < |r.passed|
        ensures var verdict := ProcessOne(WorldBefore(w, order, p, fuel), order[p], fuel).1;
          !verdict.Aborted? && (r.passed[p] <==> verdict == Completed)
      {
        VerdictShift(w, order, p, fuel);
        assert r.passed[p] == rest.passed[p - 1];
      }
    }
  }

  /** A process phase without an error ends in the world the last variation
      left. */
  lemma {:induction false} ProcessAllFinishes(w: World, order: seq<nat>, fuel: nat)
    requires WellFormed(w) && Refs(w, order)
    ensures var r := ProcessAll(w, order, fuel);
      r.error.None? ==> r.world == WorldBefore(w, order, |order|, fuel)
    decreases |order|
  {
    var r := ProcessAll(w, order, fuel);
    if |order| > 0 && r.error.None? && !ProcessOne(w, order[0], fuel).1.Aborted? {
      var a := Advance(w, order[0], fuel);
      ProcessAllCons(w, order, fuel);
      ProcessAllFinishes(a, order[1..], fuel);
      WorldBeforeShift(w, order, |order|, fuel);
    }
  }

  /** A process phase with an error ends where the process function at
      position `|passed|` aborted, with its error and the world it left. */
  lemma {:induction false} ProcessAllAborts(w: World, order: seq<nat>, fuel: nat)
    requires WellFormed(w) && Refs(w, order)
    ensures var r := ProcessAll(w, order, fuel);
      r.error.Some? ==>
        var (w', verdict) := ProcessOne(WorldBefore(w, order, |r.passed|, fuel), order[|r.passed|], fuel);
        verdict == Aborted(r.error.value) && r.world == w'
    decreases |order|
  {
    var r := ProcessAll(w, order, fuel);
    if |order| > 0 && r.error.Some? && !ProcessOne(w, order[0], fuel).1.Aborted? {
      var a := Advance(w, order[0], fuel);
      ProcessAllCons(w, order, fuel);
      var rest := ProcessAll(a, order[1..], fuel);
      ProcessAllAborts(a, order[1..], fuel);
      WorldBeforeShift(w, order, |r.passed|, fuel);
      assert order[|r.passed|] == order[1..][|rest.passed|];
    }
  }

  /** One record: the input's fields become `record`, all variations are
      reset, then all are processed. */
  function RecordStep(w: World, order: seq<nat>, input: nat, record: Record, fuel: nat): (r: Phase)
    requires WellFormed(w) && Refs(w, order) && input < |w.sources|
    ensures WellFormed(r.world)
    ensures |r.world.variations| == |w.variations| && |r.world.sources| == |w.sources|
    ensures r.error.None? ==> |r.passed| == |order|
    ensures r.error.Some? ==> |r.passed| < |order|
  {
    ProcessAll(ResetAll(Feed(w, input, record), order), order, fuel)
  }

  /** The world with the input's fields set to `record`. */
  function Feed(w: World, input: nat, record: Record): (w': World)
    requires WellFormed(w) && input < |w.sources|
    ensures WellFormed(w') && w'.variations == w.variations && w'.sources == w.sources[input := record]
  {
    var w1 := w.(sources := w.sources[input := record]);
    assert WellFormed(w1) by {
      forall j | 0 <= j < |w1.variations| ensures Fits(w1.variations[j], |w1.variations|, |w1.sources|) {
        assert Fits(w.variations[j], |w.variations|, |w.sources|);
      }
    }
    w1
  }

  /** After a record step, exactly the variations whose process completed
      are valid. */
  lemma RecordStepValidity(w: World, order: seq<nat>, input: nat, record: Record, fuel: nat)
    requires WellFormed(w) && Refs(w, order) && input < |w.sources|
    ensures var r := RecordStep(w, order, input, record, fuel);
      forall v | 0 <= v < |w.variations| && v in order ::
        r.world.variations[v].valid == PassedAt(order, r.passed, v)
  {
    var w2 := ResetAll(Feed(w, input, record), order);
    assert forall v | 0 <= v < |w.variations| && v in order :: !w2.variations[v].valid;
    ProcessAllValidity(w2, order, fuel);
  }

  /** Two worlds that differ at most in the caches and validity flags of the
      listed variations. */
  ghost predicate SameUpToCaches(w1: World, w2: World, order: seq<nat>) {
    && |w1.variations| == |w2.variations| && w1.sources == w2.sources && w1.trace == w2.trace
    && forall k | 0 <= k < |w1.variations| ::
         if k in order then
           w1.variations[k].(cache := map[], valid := false) == w2.variations[k].(cache := map[], valid := false)
         else w1.variations[k] == w2.variations[k]
  }

  /** Because every variation is reset before any of them processes a
      record, nothing cached or marked valid for the previous record can
      influence the current one. */
  lemma StaleStateInvisible(w1: World, w2: World, order: seq<nat>, input: nat, record: Record, fuel: nat)
    requires WellFormed(w1) && WellFormed(w2) && Refs(w1, order) && input < |w1.sources|
    requires SameUpToCaches(w1, w2, order)
    ensures RecordStep(w1, order, input, record, fuel) == RecordStep(w2, order, input, record, fuel)
  {
    var a := ResetAll(w1.(sources := w1.sources[input := record]), order);
    var b := ResetAll(w2.(sources := w2.sources[input := record]), order);
    assert a.variations == b.variations;
  }

  /** One `accept_entry` call, with the variation's validity at that time. */
  datatype AcceptCall = AcceptCall(variation: nat, valid: bool)

  /** What one record produced: the pass flags and the accept calls made. */
  datatype RecordLog = RecordLog(passed: seq<bool>, accepted: seq<AcceptCall>)

  /** The accept phase: a kept record calls `accept_entry` on every variation
      in order, valid or not; a record nobody passed calls nothing. */
  function AcceptCalls(order: seq<nat>, passed: seq<bool>): (calls: seq<AcceptCall>)
    requires |passed| == |order|
    ensures true in passed ==> |calls| == |order| && forall p | 0 <= p < |order| ::
      calls[p] == AcceptCall(order[p], PassedAt(order, passed, order[p]))
    ensures true !in passed ==> calls == []
  {
    if true in passed then
      seq(|order|, p requires 0 <= p < |order| => AcceptCall(order[p], PassedAt(order, passed, order[p])))
    else []
  }

  /** The accept calls as `run` makes them, reading each variation's flag
      from the world after the process phase. */
  function AcceptFromWorld(w: World, order: seq<nat>, passed: seq<bool>): (calls: seq<AcceptCall>)
    requires Refs(w, order) && |passed| == |order|
    requires forall v | 0 <= v < |w.variations| && v in order :: w.variations[v].valid == PassedAt(order, passed, v)
    ensures calls == AcceptCalls(order, passed)
  {
    if true in passed then
      seq(|order|, p requires 0 <= p < |order| => AcceptCall(order[p], w.variations[order[p]].valid))
    else []
  }

  /** A record is kept, and `accept_entry` called, exactly when some listed
      variation is valid after the process phase. */
  lemma {:induction false} AcceptIffSomeValid(w: World, order: seq<nat>, passed: seq<bool>)
    requires Refs(w, order) && |passed| == |order|
    requires forall v | 0 <= v < |w.variations| && v in order :: w.variations[v].valid == PassedAt(order, passed, v)
    ensures |AcceptFromWorld(w, order, passed)| > 0 <==> exists p | 0 <= p < |order| :: w.variations[order[p]].valid
  {
    if true in passed {
      var p :| 0 <= p < |passed| && passed[p];
      assert order[p] in order;
      assert PassedAt(order, passed, order[p]);
    } else {
      forall p | 0 <= p < |order| ensures !w.variations[order[p]].valid {
        assert order[p] in order;
      }
    }
  }

  // ---------------------------------------------------------------------------
  // Entry limit

  /** The first status boundary at or beyond `limit`. */
  function FirstBoundary(limit: int): (b: nat)
    ensures b % StatusInterval == 0 && b >= limit
    ensures forall j: nat | j % StatusInterval == 0 && j < b :: j < limit
    ensures limit <= 0 ==> b == 0
    ensures limit > 0 ==> b < limit + StatusInterval
  {
    if limit <= 0 then 0
    else
      var q := (limit - 1) / StatusInterval + 1;
      BoundaryBelow(q, limit);
      q * StatusInterval
  }

  lemma BoundaryBelow(q: nat, limit: int)
    requires limit > 0 && q == (limit - 1) / StatusInterval + 1
    ensures (q * StatusInterval) % StatusInterval == 0 && q * StatusInterval >= limit
    ensures q * StatusInterval < limit + StatusInterval
    ensures forall j: nat | j % StatusInterval == 0 && j < q * StatusInterval :: j < limit
  {
    forall j: nat | j % StatusInterval == 0 && j < q * StatusInterval
      ensures j < limit
    {
      var a := j / StatusInterval;
      assert j == a * StatusInterval;
      assert a < q;
      assert a <= (limit - 1) / StatusInterval;
    }
  }

  /** Number of records `run` processes out of `total` with an entry limit:
      it stops at the first status boundary at or beyond the limit. */
  function StopIndex(total: nat, limit: int): (n: nat)
    ensures n <= total
  {
    var b := FirstBoundary(limit);
    if b < total then b else total
  }

  /** The default limit, one more than the number of entries. */
  function Limit(entryLimit: Option<int>, total: nat): int {
    if entryLimit.Some? then entryLimit.value else total + 1
  }

  /** The default limit never stops early; an explicit one stops at a
      boundary no earlier than the limit and less than one interval after it. */
  lemma StopIndexBounds(total: nat, limit: int)
    ensures StopIndex(total, total + 1) == total
    ensures StopIndex(total, limit) < total ==>
      var n := StopIndex(total, limit);
      n % StatusInterval == 0 && n >= limit && (n == 0 || n < limit + StatusInterval)
    ensures StopIndex(total, limit) >= total || StopIndex(total, limit) >= limit
  {
  }

  /** No status boundary before `i` reached the limit. */
  predicate BoundariesBelow(i: nat, limit: int) {
    forall j: nat | j < i && j % StatusInterval == 0 :: j < limit
  }

  /** A record that is not a boundary at the limit keeps every boundary
      passed so far below the limit. */
  lemma BoundariesGrow(i: nat, limit: int)
    requires BoundariesBelow(i, limit) && !(i % StatusInterval == 0 && i >= limit)
    ensures BoundariesBelow(i + 1, limit)
  {
  }

  /** The loop's exit conditions pin down the stopping index. */
  lemma LoopExitIsStopIndex(i: nat, total: nat, limit: int)
    requires i <= total && BoundariesBelow(i, limit)
    requires i == total || (i % StatusInterval == 0 && i >= limit)
    ensures i == StopIndex(total, limit)
  {
    var b := FirstBoundary(limit);
    assert b < i ==> b < limit;
    assert i < b && i % StatusInterval == 0 ==> i < limit;
  }

  /** A record the loop goes on to process lies before the stopping index. */
  lemma ContinuingIsBeforeStopIndex(i: nat, total: nat, limit: int)
    requires i < total && BoundariesBelow(i + 1, limit)
    ensures i < StopIndex(total, limit)
  {
    var b := FirstBoundary(limit);
    assert b <= i ==> b < limit;
  }

  // ---------------------------------------------------------------------------
  // The run

  /** A log entry has one pass flag per variation and the accept calls the
      flags call for. */
  predicate Logged(order: seq<nat>, entry: RecordLog) {
    |entry.passed| == |order| && entry.accepted == AcceptCalls(order, entry.passed)
  }

  /** Every entry of a log is well formed. */
  predicate AllLogged(order: seq<nat>, log: seq<RecordLog>) {
    forall r | 0 <= r < |log| :: Logged(order, log[r])
  }

  /** The state of the run: the world, one log entry per record processed,
      and the error that aborted the run, if any. */
  datatype Progress = Progress(world: World, log: seq<RecordLog>, error: Option<Error>)

  /** The log entry of a record whose process phase finished. */
  function Entry(order: seq<nat>, phase: Phase): (entry: RecordLog)
    requires phase.error.None? && Refs(phase.world, order) && |phase.passed| == |order|
    requires forall v | 0 <= v < |phase.world.variations| && v in order ::
      phase.world.variations[v].valid == PassedAt(order, phase.passed, v)
    ensures Logged(order, entry)
  {
    RecordLog(phase.passed, AcceptFromWorld(phase.world, order, phase.passed))
  }

  /** One more record: an aborted run stays as it is; otherwise the record
      step runs in the world the run left, and either aborts the run or
      appends its entry to the log. */
  function Continue(p: Progress, order: seq<nat>, input: nat, record: Record, fuel: nat): (p': Progress)
    requires WellFormed(p.world) && Refs(p.world, order) && input < |p.world.sources|
    ensures WellFormed(p'.world)
    ensures |p'.world.variations| == |p.world.variations| && |p'.world.sources| == |p.world.sources|
    ensures p.error.Some? ==> p' == p
    ensures p.error.None? && p'.error.None? ==> |p'.log| == |p.log| + 1 && p.log <= p'.log
    ensures p'.error.Some? ==> p'.log == p.log
  {
    if p.error.Some? then p
    else
      var phase := RecordStep(p.world, order, input, record, fuel);
      RecordStepValidity(p.world, order, input, record, fuel);
      if phase.error.Some? then Progress(phase.world, p.log, phase.error)
      else Progress(phase.world, p.log + [Entry(order, phase)], None)
  }

  /** A record step adds only well-formed entries to the log. */
  lemma ContinueLogged(p: Progress, order: seq<nat>, input: nat, record: Record, fuel: nat)
    requires WellFormed(p.world) && Refs(p.world, order) && input < |p.world.sources|
    requires AllLogged(order, p.log)
    ensures AllLogged(order, Continue(p, order, input, record, fuel).log)
  {
  }

  /** The reference run: the records of `rest`, one record step after the
      other from `p`; once a record step aborts, the remaining records are not
      looked at. */
  function RunFrom(p: Progress, order: seq<nat>, input: nat, rest: seq<Record>, fuel: nat): (r: Progress)
    requires WellFormed(p.world) && Refs(p.world, order) && input < |p.world.sources|
    ensures WellFormed(r.world)
    ensures |r.world.variations| == |p.world.variations| && |r.world.sources| == |p.world.sources|
    ensures p.log <= r.log
    ensures p.error.None? && r.error.None? ==> |r.log| == |p.log| + |rest|
    ensures p.error.None? && r.error.Some? ==> |r.log| < |p.log| + |rest|
    decreases |rest|
  {
    if |rest| == 0 || p.error.Some? then p
    else
      var next := Continue(p, order, input, rest[0], fuel);
      assert Refs(next.world, order);
      RunFrom(next, order, input, rest[1..], fuel)
  }

  /** The reference run, one record further. */
  lemma RunFromStep(p: Progress, order: seq<nat>, input: nat, rest: seq<Record>, fuel: nat)
    requires WellFormed(p.world) && Refs(p.world, order) && input < |p.world.sources|
    requires |rest| > 0 && p.error.None?
    ensures var next := Continue(p, order, input, rest[0], fuel);
      && Refs(next.world, order)
      && RunFrom(p, order, input, rest, fuel) == RunFrom(next, order, input, rest[1..], fuel)
  {
  }

  /** The reference run at its end. */
  lemma RunFromStops(p: Progress, order: seq<nat>, input: nat, rest: seq<Record>, fuel: nat)
    requires WellFormed(p.world) && Refs(p.world, order) && input < |p.world.sources|
    requires |rest| == 0 || p.error.Some?
    ensures RunFrom(p, order, input, rest, fuel) == p
  {
  }

  /** The reference run over `records[i..stop]` is the step on `records[i]`
      followed by the run over the records after it. */
  lemma RunFromRecord(p: Progress, order: seq<nat>, input: nat, records: seq<Record>, i: nat, stop: nat, fuel: nat)
    requires WellFormed(p.world) && Refs(p.world, order) && input < |p.world.sources|
    requires p.error.None? && i < stop <= |records|
    ensures var next := Continue(p, order, input, records[i], fuel);
      && Refs(next.world, order)
      && RunFrom(p, order, input, records[i..stop], fuel)
           == if next.error.Some? then next else RunFrom(next, order, input, records[i + 1..stop], fuel)
  {
    var next := Continue(p, order, input, records[i], fuel);
    RunFromStep(p, order, input, records[i..stop], fuel);
    assert records[i..stop][0] == records[i] && records[i..stop][1..] == records[i + 1..stop];
    if next.error.Some? {
      RunFromStops(next, order, input, records[i + 1..stop], fuel);
    }
  }

  /** The first record of the reference run: if its record step aborts, the
      run ends there with that error and the log as it was; otherwise the
      next log entry is the one that record step gave. */
  lemma RunFromFirst(p: Progress, order: seq<nat>, input: nat, rest: seq<Record>, fuel: nat)
    requires WellFormed(p.world) && Refs(p.world, order) && input < |p.world.sources|
    requires |rest| > 0 && p.error.None?
    ensures var phase := RecordStep(p.world, order, input, rest[0], fuel);
      var q := RunFrom(p, order, input, rest, fuel);
      && (phase.error.Some? ==> q == Progress(phase.world, p.log, phase.error))
      && (phase.error.None? ==>
            && (forall v | 0 <= v < |phase.world.variations| && v in order ::
                  phase.world.variations[v].valid == PassedAt(order, phase.passed, v))
            && |p.log| < |q.log|
            && q.log[|p.log|] == Entry(order, phase))
  {
    RunFromStep(p, order, input, rest, fuel);
    RecordStepValidity(p.world, order, input, rest[0], fuel);
    var next := Continue(p, order, input, rest[0], fuel);
    if next.error.Some? {
      RunFromStops(next, order, input, rest[1..], fuel);
    }
  }

  /** Every entry the reference run adds to a log is well formed. */
  lemma {:induction false} RunFromLogged(p: Progress, order: seq<nat>, input: nat, rest: seq<Record>, fuel: nat)
    requires WellFormed(p.world) && Refs(p.world, order) && input < |p.world.sources|
    requires AllLogged(order, p.log)
    ensures AllLogged(order, RunFrom(p, order, input, rest, fuel).log)
    decreases |rest|
  {
    if |rest| > 0 && p.error.None? {
      var next := Continue(p, order, input, rest[0], fuel);
      RunFromStep(p, order, input, rest, fuel);
      ContinueLogged(p, order, input, rest[0], fuel);
      RunFromLogged(next, order, input, rest[1..], fuel);
    } else {
      RunFromStops(p, order, input, rest, fuel);
    }
  }

  /** The body of the record loop: record `i` is processed, and the reference
      run over the records from `i` to `stop` goes on from the result. */
  method ProcessRecord(p: Progress, order: seq<nat>, input: nat, records: seq<Record>, i: nat, ghost stop: nat,
                       fuel: nat)
    returns (next: Progress)
    requires WellFormed(p.world) && Refs(p.world, order) && input < |p.world.sources|
    requires p.error.None? && AllLogged(order, p.log) && i < stop <= |records|
    ensures WellFormed(next.world) && Refs(next.world, order) && input < |next.world.sources|
    ensures AllLogged(order, next.log)
    ensures next.error.None? ==>
      && |next.log| == |p.log| + 1
      && RunFrom(next, order, input, records[i + 1..stop], fuel) == RunFrom(p, order, input, records[i..stop], fuel)
    ensures next.error.Some? ==> |next.log| == |p.log| && next == RunFrom(p, order, input, records[i..stop], fuel)
  {
    next := Continue(p, order, input, records[i], fuel);
    ContinueLogged(p, order, input, records[i], fuel);
    RunFromRecord(p, order, input, records, i, stop, fuel);
  }

  /** The record loop of `run` for the wired variations `order`: it computes
      the reference run over the records before the stopping index, so it
      processes exactly those records unless an error escapes first. */
  method RunRecords(w0: World, order: seq<nat>, input: nat, records: seq<Record>, limit: int, fuel: nat)
    returns (w: World, log: seq<RecordLog>, error: Option<Error>)
    requires WellFormed(w0) && Refs(w0, order) && input < |w0.sources|
    ensures Progress(w, log, error)
         == RunFrom(Progress(w0, [], None), order, input, records[..StopIndex(|records|, limit)], fuel)
    ensures WellFormed(w)
    ensures error.None? ==> |log| == StopIndex(|records|, limit)
    ensures error.Some? ==> |log| < StopIndex(|records|, limit)
    ensures AllLogged(order, log)
  {
    ghost var stop := StopIndex(|records|, limit);
    ghost var goal := RunFrom(Progress(w0, [], None), order, input, records[..stop], fuel);
    var p := Progress(w0, [], None);
    var i := 0;
    assert records[..stop] == records[i..stop];
    while i < |records|
      invariant i <= |records| && i <= stop && BoundariesBelow(i, limit)
      invariant WellFormed(p.world) && Refs(p.world, order) && input < |p.world.sources|
      invariant p.error.None? && |p.log| == i && AllLogged(order, p.log)
      invariant RunFrom(p, order, input, records[i..stop], fuel) == goal
    {
      if i % StatusInterval == 0 && i >= limit {
        break;
      }
      BoundariesGrow(i, limit);
      ContinuingIsBeforeStopIndex(i, |records|, limit);
      var next := ProcessRecord(p, order, input, records, i, stop, fuel);
      if next.error.Some? {
        w, log, error := next.world, next.log, next.error;
        return;
      }
      p := next;
      i := i + 1;
    }
    LoopExitIsStopIndex(i, |records|, limit);
    RunFromStops(p, order, input, records[i..stop], fuel);
    w, log, error := p.world, p.log, None;
  }

  /** `run(input_tree, nominal, variations, entry_limit=...)`: `input` is the
      source slot of the input tree, `records` its entries. Returns the final
      world, the full variation list, one log entry per processed record and
      the error that aborted the run, if any. With no variation at all it
      returns before reading any record; otherwise the result is the
      reference run of the wired world up to the stopping index. */
  method Run(w0: World, variations: seq<nat>, nominal: Option<nat>, input: nat,
             records: seq<Record>, entryLimit: Option<int>, fuel: nat)
    returns (w: World, order: seq<nat>, log: seq<RecordLog>, error: Option<Error>)
    requires WellFormed(w0) && Refs(w0, variations) && NominalRef(w0, nominal) && input < |w0.sources|
    ensures WellFormed(w)
    ensures order == Setup(w0, variations, nominal, input).1
    ensures |order| == 0 ==> w == Setup(w0, variations, nominal, input).0 && |log| == 0 && error.None?
    ensures |order| > 0 ==>
      Progress(w, log, error)
        == RunFrom(Progress(Setup(w0, variations, nominal, input).0, [], None), order, input,
                   records[..StopIndex(|records|, Limit(entryLimit, |records|))], fuel)
    ensures error.None? && |order| > 0 ==> |log| == StopIndex(|records|, Limit(entryLimit, |records|))
    ensures error.Some? ==> |log| < StopIndex(|records|, Limit(entryLimit, |records|))
    ensures AllLogged(order, log)
  {
    var setup := Setup(w0, variations, nominal, input);
    w, order := setup.0, setup.1;
    log, error := [], None;
    if |order| == 0 {
      return;
    }
    w, log, error := RunRecords(w, order, input, records, Limit(entryLimit, |records|), fuel);
  }
}
