/** Small concrete runs of the model: a single cut over three records, the
    entry limit at the status interval, and a systematic variation deferring
    one quantity to the nominal one. */
module Scenarios {
  import opened Values
  import opened Variations
  import Cutflows
  import Decimal
  import VariationLoop
  import ResolutionFacts

  /** Records with n = 1, 3, 2 and a process function cutting "min2" when
      n < 2: the cut is listed once and counts the two records that passed,
      and the report is that single line. */
  lemma SingleCutScenario()
    ensures var c := Cutflows.ApplyRecords(Cutflows.Empty(), [[true], [false], [false]], ["min2"]);
      && c.names == ["min2"]
      && Cutflows.Count(c, "min2") == 2
      && Cutflows.Valid(c) && Cutflows.Report(c) == "min2:\t2\n"
  {
    var c0 := Cutflows.Empty();
    var c1 := Cutflows.ApplyChain(c0, [true], ["min2"]).flow;
    assert c1 == c0;
    var c2 := Cutflows.ApplyChain(c1, [false], ["min2"]).flow;
    assert c2.names == ["min2"] && c2.counts == map["min2" := 1];
    var c3 := Cutflows.ApplyChain(c2, [false], ["min2"]).flow;
    assert c3.names == ["min2"] && c3.counts == map["min2" := 2];
    assert Cutflows.ApplyRecords(c0, [[true], [false], [false]], ["min2"]) == c3 by {
      assert [[true], [false], [false]][1..] == [[false], [false]];
      assert [[false], [false]][1..] == [[false]];
      assert [[false]][1..] == [];
    }
    SingleLineReport(c3);
  }

  lemma SingleLineReport(c: Cutflows.Cutflow)
    requires c.names == ["min2"] && c.counts == map["min2" := 2]
    ensures Cutflows.Valid(c) && Cutflows.Report(c) == "min2:\t2\n"
  {
    assert Cutflows.MaxWidth(["min2"]) == 4;
    assert Cutflows.Spaces(0) == "";
    assert Decimal.Render(2) == "2";
    var l := Cutflows.Line("min2", 2, 4);
    assert l == "min2:\t2\n";
    assert Cutflows.Lines(c) == [l];
    assert Cutflows.Concat([l]) == l + Cutflows.Concat([]);
  }

  /** Ten records with an entry limit of 2 are all processed: the limit is
      only looked at every 5000 records. With 12000 records the run stops
      after 5000. */
  lemma EntryLimitScenario()
    ensures VariationLoop.StopIndex(10, 2) == 10
    ensures VariationLoop.StopIndex(12000, 2) == 5000
    ensures VariationLoop.StopIndex(12000, 5000) == 5000
    ensures VariationLoop.StopIndex(12000, 5001) == 10000
    ensures VariationLoop.StopIndex(12000, 0) == 0
  {
  }

  /** A nominal variation computing met = 100 and a systematic one whose
      `_get_met` defers unconditionally. */
  function DeferralWorld(): World {
    var nominal := Variation("nominal", map["met" := Return(Int(100))], None, None, None,
                             map[], false, Cutflows.Empty());
    var syst := Variation("syst", map["met" := Defer(Return(Int(0)))], None, None, Some(0),
                          map[], false, Cutflows.Empty());
    World([nominal, syst], [], [])
  }

  /** Reading met on the systematic variation yields the nominal's 100, and
      the nominal variation caches it. */
  lemma DeferralScenario()
    ensures WellFormed(DeferralWorld())
    ensures var (w', r) := Resolve(DeferralWorld(), 1, "met", 3);
      r == Resolved(Int(100)) && w'.variations[0].cache == map["met" := Int(100)]
  {
    var w := DeferralWorld();
    assert Fits(w.variations[0], 2, 0) && Fits(w.variations[1], 2, 0);
    ResolutionFacts.AlwaysDeferringReadsFallback(w, 1, "met", 3);
    var w1 := Invoked(w, 1, "met");
    var w2 := Invoked(w1, 0, "met");
    assert Exec(w2, 0, Return(Int(100)), 1) == (w2, Returned(Int(100)));
  }

  // ---------------------------------------------------------------------------
  // A whole run

  /** A process function reading the field n of the input and cutting "min2"
      when n < 2. */
  const MinTwo: Calc := ReadSource("n", (x: Value) => CutIf(x.Int? && x.i < 2, "min2", Return(Null)))

  function NRecord(n: int): Record {
    map["n" := Int(n)]
  }

  /** One variation running `MinTwo`, wired to the only source. */
  ghost predicate MinTwoWorld(w: World) {
    && WellFormed(w) && |w.variations| == 1 && |w.sources| == 1
    && w.variations[0].process == Some(MinTwo) && w.variations[0].source == Some(0)
  }

  /** `MinTwo` reads n from the source and goes on to its cut. */
  lemma MinTwoReads(w: World, n: int)
    requires MinTwoWorld(w) && w.sources[0] == NRecord(n)
    ensures Exec(w, 0, MinTwo, 3) == Exec(w, 0, CutIf(n < 2, "min2", Return(Null)), 2)
  {
    assert LookupSource(w, 0, "n") == Resolved(Int(n));
  }

  /** The variation's computation on a record with field n: a cut that fails
      for n < 2 and otherwise counts and returns. */
  lemma MinTwoComputation(w: World, n: int)
    requires MinTwoWorld(w) && w.sources[0] == NRecord(n)
    ensures var (w', o) := Exec(w, 0, MinTwo, 3);
      && MinTwoWorld(w')
      && w'.variations[0].valid == w.variations[0].valid
      && (o == SkipSignal <==> n < 2)
      && (n >= 2 ==> o == Returned(Null))
  {
    MinTwoReads(w, n);
    ResolutionFacts.CutInComputation(w, 0, n < 2, "min2", Return(Null), 1);
    if n >= 2 {
      var v := w.variations[0];
      var w1 := Update(w, 0, v.(cutflow := Cutflows.CutIf(v.cutflow, false, "min2").flow));
      ResolutionFacts.CutflowKeepsWellFormed(w, 0, Cutflows.CutIf(v.cutflow, false, "min2").flow);
      assert w1.variations[0] == v.(cutflow := Cutflows.CutIf(v.cutflow, false, "min2").flow);
      assert MinTwoWorld(w1);
      assert Exec(w1, 0, Return(Null), 1) == (w1, Returned(Null));
    }
  }

  /** The process phase on a record with field n: the variation passes iff
      n >= 2, and is valid afterwards exactly then. */
  lemma MinTwoPhase(w: World, n: int)
    requires MinTwoWorld(w) && w.sources[0] == NRecord(n) && !w.variations[0].valid
    ensures var phase := VariationLoop.ProcessAll(w, [0], 3);
      && phase.error.None? && phase.passed == [n >= 2]
      && MinTwoWorld(phase.world) && phase.world.variations[0].valid == (n >= 2)
  {
    MinTwoComputation(w, n);
    var a := VariationLoop.Advance(w, 0, 3);
    VariationLoop.AdvanceValidity(w, 0, 3);
    assert VariationLoop.ProcessAll(a, [], 3) == VariationLoop.Phase(a, [], None);
  }

  /** One record through the record step: with n >= 2 the variation passes
      and `accept_entry` is called once for it, valid; with n < 2 it is cut
      and nothing is accepted. */
  lemma MinTwoRecord(p: VariationLoop.Progress, n: int)
    requires MinTwoWorld(p.world) && p.error.None?
    ensures var q := VariationLoop.Continue(p, [0], 0, NRecord(n), 3);
      && q.error.None? && MinTwoWorld(q.world)
      && q.log == p.log + [MinTwoEntry(n)]
  {
    var w1 := VariationLoop.ResetAll(VariationLoop.Feed(p.world, 0, NRecord(n)), [0]);
    assert w1.variations[0] == p.world.variations[0].(cache := map[], valid := false);
    MinTwoPhase(w1, n);
    var phase := VariationLoop.ProcessAll(w1, [0], 3);
    var entry := VariationLoop.Entry([0], phase);
    if n >= 2 {
      assert VariationLoop.PassedAt([0], [true], 0) by {
        assert [0][0] == 0 && [true][0];
      }
      assert entry.accepted == [VariationLoop.AcceptCall(0, true)];
    } else {
      assert true !in [false];
    }
  }

  /** The records with field n taking the values `ns`, in order. */
  function NRecords(ns: seq<int>): (rs: seq<Record>)
    ensures |rs| == |ns| && forall k | 0 <= k < |ns| :: rs[k] == NRecord(ns[k])
  {
    seq(|ns|, k requires 0 <= k < |ns| => NRecord(ns[k]))
  }

  /** What `MinTwo` logs for a record with field n. */
  function MinTwoEntry(n: int): VariationLoop.RecordLog {
    VariationLoop.RecordLog([n >= 2], if n >= 2 then [VariationLoop.AcceptCall(0, true)] else [])
  }

  /** What `MinTwo` logs for the records with field n taking the values `ns`. */
  function MinTwoLog(ns: seq<int>): (log: seq<VariationLoop.RecordLog>)
    ensures |log| == |ns| && forall k | 0 <= k < |ns| :: log[k] == MinTwoEntry(ns[k])
  {
    seq(|ns|, k requires 0 <= k < |ns| => MinTwoEntry(ns[k]))
  }

  /** Logging the first record, then the rest. */
  lemma MinTwoLogCons(log: seq<VariationLoop.RecordLog>, ns: seq<int>)
    requires |ns| > 0
    ensures log + MinTwoLog(ns) == (log + [MinTwoEntry(ns[0])]) + MinTwoLog(ns[1..])
  {
    assert MinTwoLog(ns) == [MinTwoEntry(ns[0])] + MinTwoLog(ns[1..]);
  }

  /** `next` is the state after the first of the records `ns`, and the run
      over them carries on from it. */
  ghost predicate MinTwoNext(p: VariationLoop.Progress, next: VariationLoop.Progress, ns: seq<int>)
    requires MinTwoWorld(p.world) && |ns| > 0
  {
    && MinTwoWorld(next.world) && next.error.None?
    && next.log == p.log + [MinTwoEntry(ns[0])]
    && VariationLoop.RunFrom(p, [0], 0, NRecords(ns), 3) == VariationLoop.RunFrom(next, [0], 0, NRecords(ns[1..]), 3)
  }

  /** The first record of a run of `MinTwo`. */
  lemma MinTwoFirst(p: VariationLoop.Progress, ns: seq<int>)
    requires MinTwoWorld(p.world) && p.error.None? && |ns| > 0
    ensures exists next :: MinTwoNext(p, next, ns)
  {
    var rs := NRecords(ns);
    MinTwoRecord(p, ns[0]);
    VariationLoop.RunFromStep(p, [0], 0, rs, 3);
    var next := VariationLoop.Continue(p, [0], 0, rs[0], 3);
    assert rs[1..] == NRecords(ns[1..]);
    assert MinTwoNext(p, next, ns);
  }

  /** `run` over any records from a world holding one variation running
      `MinTwo`: every record is logged, a record with n < 2 accepts nothing
      and any other calls `accept_entry` once on the valid variation. */
  lemma {:induction false} MinTwoRunFrom(p: VariationLoop.Progress, ns: seq<int>)
    requires MinTwoWorld(p.world) && p.error.None?
    ensures var q := VariationLoop.RunFrom(p, [0], 0, NRecords(ns), 3);
      q.error.None? && q.log == p.log + MinTwoLog(ns)
    decreases |ns|
  {
    var rs := NRecords(ns);
    if |ns| == 0 {
      VariationLoop.RunFromStops(p, [0], 0, rs, 3);
      assert p.log + MinTwoLog(ns) == p.log;
    } else {
      MinTwoFirst(p, ns);
      var next :| MinTwoNext(p, next, ns);
      MinTwoRunFrom(next, ns[1..]);
      MinTwoLogCons(p.log, ns);
    }
  }

  /** Wiring a single variation running `MinTwo` to the input. */
  lemma MinTwoSetup(w0: World)
    requires WellFormed(w0) && |w0.variations| == 1 && |w0.sources| == 1 && w0.variations[0].process == Some(MinTwo)
    ensures var (w, order) := VariationLoop.Setup(w0, [0], None, 0);
      MinTwoWorld(w) && order == [0]
  {
    var w := VariationLoop.Setup(w0, [0], None, 0).0;
    assert w.variations[0].process == w0.variations[0].process by {
      assert w.variations[0] == w0.variations[0].(source := w.variations[0].source,
                                                   fallback := w.variations[0].fallback);
    }
  }

  /** The driver on records n = 1, 3, 2 with a single variation running
      `MinTwo`, no nominal variation and no entry limit: the first record is
      cut and accepts nothing, the other two each call `accept_entry` once
      on the valid variation. */
  method RunMinTwo() returns (log: seq<VariationLoop.RecordLog>, error: Option<Error>)
    ensures error.None?
    ensures log == [VariationLoop.RecordLog([false], []),
                    VariationLoop.RecordLog([true], [VariationLoop.AcceptCall(0, true)]),
                    VariationLoop.RecordLog([true], [VariationLoop.AcceptCall(0, true)])]
  {
    var v := Variation("nominal", map[], Some(MinTwo), None, None, map[], false, Cutflows.Empty());
    var w0 := World([v], [map[]], []);
    assert Fits(w0.variations[0], 1, 1);
    var ns := [1, 3, 2];
    var records := NRecords(ns);
    MinTwoSetup(w0);
    var setup := VariationLoop.Setup(w0, [0], None, 0).0;
    MinTwoRunFrom(VariationLoop.Progress(setup, [], None), ns);
    assert VariationLoop.StopIndex(3, VariationLoop.Limit(None, 3)) == 3;
    assert records[..3] == records;
    var w, order;
    w, order, log, error := VariationLoop.Run(w0, [0], None, 0, records, None, 3);
    MinTwoExampleLog();
  }

  /** The log of the records n = 1, 3, 2 spelled out. */
  lemma MinTwoExampleLog()
    ensures MinTwoLog([1, 3, 2])
      == [VariationLoop.RecordLog([false], []),
          VariationLoop.RecordLog([true], [VariationLoop.AcceptCall(0, true)]),
          VariationLoop.RecordLog([true], [VariationLoop.AcceptCall(0, true)])]
  {
    assert MinTwoLog([1, 3, 2]) == [MinTwoEntry(1), MinTwoEntry(3), MinTwoEntry(2)];
  }
}
