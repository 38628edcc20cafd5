/** Properties of calculable resolution: memoisation, the routing of
    unregistered names and KeyErrors to the source, deferral to the fallback,
    the defer helpers, `reset`, and which variations a read can touch. */
module ResolutionFacts {
  import opened Values
  import opened Variations

  // ---------------------------------------------------------------------------
  // Memoisation

  /** A cached name is answered from the cache; nothing runs and nothing changes. */
  lemma CachedReadIsStable(w: World, i: nat, name: string, fuel: nat)
    requires WellFormed(w) && i < |w.variations|
    requires name in w.variations[i].cache
    ensures Resolve(w, i, name, fuel) == (w, Resolved(w.variations[i].cache[name]))
  {
  }

  /** A registered calculable whose computation returns `x` (Null included)
      is answered with `x`, and `x` is cached: any later read in the same
      record returns the identical value without running the computation
      again (the world, trace included, is left exactly as it is). */
  lemma ComputedValueIsCached(w: World, i: nat, name: string, fuel: nat)
    requires WellFormed(w) && i < |w.variations|
    requires name !in w.variations[i].cache && name in w.variations[i].calculables && fuel > 0
    requires Exec(Invoked(w, i, name), i, w.variations[i].calculables[name], fuel - 1).1.Returned?
    ensures var x := Exec(Invoked(w, i, name), i, w.variations[i].calculables[name], fuel - 1).1.value;
      var (w', r) := Resolve(w, i, name, fuel);
      && r == Resolved(x)
      && name in w'.variations[i].cache && w'.variations[i].cache[name] == x
      && forall fuel' :: Resolve(w', i, name, fuel') == (w', Resolved(x))
  {
    var w' := Resolve(w, i, name, fuel).0;
    forall fuel': nat ensures Resolve(w', i, name, fuel') == (w', Resolved(w'.variations[i].cache[name])) {
      CachedReadIsStable(w', i, name, fuel');
    }
  }

  /** Once a name is cached on a variation, no later read (of any name, on
      any variation) runs that variation's computation of it again until
      the variation is reset. */
  lemma NeverRecomputedOnceCached(w: World, j: nat, m: string, fuel: nat, k: nat, n: string)
    requires WellFormed(w) && j < |w.variations| && k < |w.variations|
    requires n in w.variations[k].cache
    ensures var w' := Resolve(w, j, m, fuel).0;
      forall t | |w.trace| <= t < |w'.trace| :: w'.trace[t] != Invocation(k, n)
  {
    var w' := Resolve(w, j, m, fuel).0;
    forall t | |w.trace| <= t < |w'.trace| ensures w'.trace[t] != Invocation(k, n) {
      assert FreshAt(w, w', t);
    }
  }

  // ---------------------------------------------------------------------------
  // Routing to the source and to the fallback

  /** A name that is not a registered calculable is read from the variation's
      own source (not from the fallback) and is not cached; with no source,
      or no such field, the read fails with a missing attribute. */
  lemma UnregisteredNameReadsSource(w: World, i: nat, name: string, fuel: nat)
    requires WellFormed(w) && i < |w.variations|
    requires name !in w.variations[i].calculables
    ensures var (w', r) := Resolve(w, i, name, fuel);
      var src := w.variations[i].source;
      && w' == w
      && (r.Resolved? <==> src.Some? && name in w.sources[src.value])
      && (r.Resolved? ==> r.value == w.sources[src.value][name])
      && (!r.Resolved? ==> r == Failed(MissingAttribute(name)))
  {
    assert Fits(w.variations[i], |w.variations|, |w.sources|);
  }

  /** A computation that raises KeyError is answered by the source as well,
      and nothing is cached for the name. */
  lemma KeyErrorReadsSource(w: World, i: nat, name: string, fuel: nat)
    requires WellFormed(w) && i < |w.variations|
    requires name !in w.variations[i].cache && name in w.variations[i].calculables && fuel > 0
    requires Exec(Invoked(w, i, name), i, w.variations[i].calculables[name], fuel - 1).1 == KeyErrorSignal
    ensures var w1 := Exec(Invoked(w, i, name), i, w.variations[i].calculables[name], fuel - 1).0;
      Resolve(w, i, name, fuel) == (w1, LookupSource(w1, i, name))
  {
  }

  /** Variation `k`'s fallback, if any, is ranked strictly below `k`. */
  ghost predicate RankedAt(w: World, rank: seq<nat>, k: nat) {
    (k < |w.variations| && k < |rank| && w.variations[k].fallback.Some? && w.variations[k].fallback.value < |rank|)
      ==> rank[w.variations[k].fallback.value] < rank[k]
  }

  /** Fallbacks form a chain that strictly descends in `rank`, so the chain
      starting at any variation is acyclic. */
  ghost predicate Ranked(w: World, rank: seq<nat>) {
    && |rank| == |w.variations|
    && forall k: nat {:trigger RankedAt(w, rank, k)} :: RankedAt(w, rank, k)
  }

  /** Variation `k` is identical in `w` and `w'`. */
  ghost predicate SameAt(w: World, w': World, k: nat) {
    k < |w.variations| && k < |w'.variations| ==> w'.variations[k] == w.variations[k]
  }

  /** Variations ranked above `i` are identical in `w` and `w'`. */
  ghost predicate UntouchedAbove(w: World, w': World, rank: seq<nat>, i: nat)
    requires i < |rank|
  {
    forall k: nat {:trigger SameAt(w, w', k)} :: k < |rank| && rank[k] > rank[i] ==> SameAt(w, w', k)
  }

  lemma RankedSameVariations(w: World, w': World, rank: seq<nat>)
    requires Ranked(w, rank) && w'.variations == w.variations
    ensures Ranked(w', rank)
  {
    forall k: nat ensures RankedAt(w', rank, k) {
      assert RankedAt(w, rank, k);
    }
  }

  lemma RankedEvolves(w: World, w': World, rank: seq<nat>)
    requires Ranked(w, rank) && Evolves(w, w')
    ensures Ranked(w', rank)
  {
    forall k: nat ensures RankedAt(w', rank, k) {
      assert RankedAt(w, rank, k);
      assert EvolvesAt(w, w', k);
    }
  }

  /** Reading a name on variation `i` changes no variation ranked above `i`
      (a variation's fallback is ranked below it). */
  lemma {:induction false} ResolveFrame(w: World, rank: seq<nat>, i: nat, name: string, fuel: nat)
    requires WellFormed(w) && i < |w.variations| && Ranked(w, rank)
    ensures UntouchedAbove(w, Resolve(w, i, name, fuel).0, rank, i)
    decreases fuel, 2
  {
    var v := w.variations[i];
    if name !in v.cache && name in v.calculables && fuel > 0 {
      var w0 := Invoked(w, i, name);
      RankedSameVariations(w, w0, rank);
      ExecFrame(w0, rank, i, v.calculables[name], fuel - 1);
      var (w1, o) := Exec(w0, i, v.calculables[name], fuel - 1);
      RankedEvolves(w0, w1, rank);
      var w' := Resolve(w, i, name, fuel).0;
      if !(o.DeferSignal? && w1.variations[i].fallback.Some?) {
        forall k: nat | k < |rank| && rank[k] > rank[i] ensures SameAt(w, w', k) {
          assert SameAt(w0, w1, k);
        }
      } else {
        var f := w1.variations[i].fallback.value;
        assert Fits(w1.variations[i], |w1.variations|, |w1.sources|);
        assert RankedAt(w1, rank, i);
        ResolveFrame(w1, rank, f, name, fuel - 1);
        var w2 := Resolve(w1, f, name, fuel - 1).0;
        forall k: nat | k < |rank| && rank[k] > rank[i] ensures SameAt(w, w2, k) {
          assert SameAt(w0, w1, k) && SameAt(w1, w2, k);
        }
      }
    }
  }

  lemma {:induction false} ExecFrame(w: World, rank: seq<nat>, i: nat, c: Calc, fuel: nat)
    requires WellFormed(w) && i < |w.variations| && Ranked(w, rank)
    ensures UntouchedAbove(w, Exec(w, i, c, fuel).0, rank, i)
    decreases fuel, 1
  {
    if fuel > 0 {
      match c
      case Read(n, next) => ExecReadFrame(w, rank, i, n, next, fuel);
      case ReadSource(n, next) =>
        var r := LookupSource(w, i, n);
        if r.Resolved? {
          ExecFrame(w, rank, i, next(r.value), fuel - 1);
        }
      case Defer(rest) => ExecFrame(w, rank, i, rest, fuel - 1);
      case DeferIf(_, rest) => ExecFrame(w, rank, i, rest, fuel - 1);
      case DeferUnless(_, rest) => ExecFrame(w, rank, i, rest, fuel - 1);
      case CutIf(expr, cut, rest) => ExecCutFrame(w, rank, i, expr, cut, rest, fuel);
      case _ =>
    }
  }

  lemma {:induction false} ExecReadFrame(w: World, rank: seq<nat>, i: nat, name: string, next: Value -> Calc, fuel: nat)
    requires WellFormed(w) && i < |w.variations| && Ranked(w, rank) && fuel > 0
    ensures UntouchedAbove(w, ExecRead(w, i, name, next, fuel).0, rank, i)
    decreases fuel, 0
  {
    ResolveFrame(w, rank, i, name, fuel - 1);
    var (w1, r) := Resolve(w, i, name, fuel - 1);
    if r.Resolved? {
      RankedEvolves(w, w1, rank);
      ExecFrame(w1, rank, i, next(r.value), fuel - 1);
      var w2 := Exec(w1, i, next(r.value), fuel - 1).0;
      forall k: nat | k < |rank| && rank[k] > rank[i] ensures SameAt(w, w2, k) {
        assert SameAt(w, w1, k) && SameAt(w1, w2, k);
      }
    }
  }

  lemma {:induction false} ExecCutFrame(w: World, rank: seq<nat>, i: nat, expr: bool, cut: string, rest: Calc,
                                        fuel: nat)
    requires WellFormed(w) && i < |w.variations| && Ranked(w, rank) && fuel > 0
    ensures UntouchedAbove(w, ExecCut(w, i, expr, cut, rest, fuel).0, rank, i)
    decreases fuel, 0
  {
    var v := w.variations[i];
    var step := Cutflows.CutIf(v.cutflow, expr, cut);
    var w1 := Update(w, i, v.(cutflow := step.flow));
    if !step.skipped {
      assert Fits(v, |w.variations|, |w.sources|);
      assert Ranked(w1, rank) by {
        forall k: nat ensures RankedAt(w1, rank, k) {
          assert RankedAt(w, rank, k);
        }
      }
      ExecFrame(w1, rank, i, rest, fuel - 1);
      var w2 := Exec(w1, i, rest, fuel - 1).0;
      forall k: nat | k < |rank| && rank[k] > rank[i] ensures SameAt(w, w2, k) {
        assert SameAt(w1, w2, k);
      }
    }
  }

  /** A computation that defers is answered by the fallback's own resolution
      of the same name, and (with an acyclic fallback chain) the deferring
      variation is left as the computation left it: nothing is cached for the
      name locally. */
  lemma DeferredReadIsFallbacksAnswer(w: World, rank: seq<nat>, i: nat, name: string, fuel: nat)
    requires WellFormed(w) && i < |w.variations| && Ranked(w, rank)
    requires name !in w.variations[i].cache && name in w.variations[i].calculables && fuel > 0
    requires Exec(Invoked(w, i, name), i, w.variations[i].calculables[name], fuel - 1).1 == DeferSignal
    ensures var w1 := Exec(Invoked(w, i, name), i, w.variations[i].calculables[name], fuel - 1).0;
      && w.variations[i].fallback.Some?
      && w.variations[i].fallback.value < |w1.variations|
      && Resolve(w, i, name, fuel) == Resolve(w1, w.variations[i].fallback.value, name, fuel - 1)
      && Resolve(w, i, name, fuel).0.variations[i] == w1.variations[i]
  {
    var w0 := Invoked(w, i, name);
    var (w1, o) := Exec(w0, i, w.variations[i].calculables[name], fuel - 1);
    assert EvolvesAt(w0, w1, i);
    var f := w.variations[i].fallback.value;
    assert Fits(w.variations[i], |w.variations|, |w.sources|);
    RankedSameVariations(w, w0, rank);
    RankedEvolves(w0, w1, rank);
    assert RankedAt(w1, rank, i);
    ResolveFrame(w1, rank, f, name, fuel - 1);
    assert SameAt(w1, Resolve(w1, f, name, fuel - 1).0, i);
  }

  /** A calculable that always defers reads as its fallback's value. */
  lemma AlwaysDeferringReadsFallback(w: World, i: nat, name: string, fuel: nat)
    requires WellFormed(w) && i < |w.variations|
    requires name !in w.variations[i].cache && name in w.variations[i].calculables
    requires w.variations[i].calculables[name].Defer? && w.variations[i].fallback.Some?
    requires fuel >= 2
    ensures w.variations[i].fallback.value < |w.variations|
    ensures Resolve(w, i, name, fuel) == Resolve(Invoked(w, i, name), w.variations[i].fallback.value, name, fuel - 1)
  {
    assert Fits(w.variations[i], |w.variations|, |w.sources|);
  }

  // ---------------------------------------------------------------------------
  // Defer helpers

  /** Without a fallback none of the defer helpers signals: the computation
      simply goes on locally. */
  lemma NoFallbackNeverDefers(w: World, i: nat, cond: bool, rest: Calc, fuel: nat)
    requires WellFormed(w) && i < |w.variations| && w.variations[i].fallback.None?
    ensures Exec(w, i, Defer(rest), fuel + 1) == Exec(w, i, rest, fuel)
    ensures Exec(w, i, DeferIf(cond, rest), fuel + 1) == Exec(w, i, rest, fuel)
    ensures Exec(w, i, DeferUnless(cond, rest), fuel + 1) == Exec(w, i, rest, fuel)
  {
  }

  /** With a fallback, `defer()` always signals, `defer_if(c)` signals iff `c`
      and `defer_unless(c)` iff not `c`; signalling leaves the world as it was. */
  lemma FallbackDefers(w: World, i: nat, cond: bool, rest: Calc, fuel: nat)
    requires WellFormed(w) && i < |w.variations| && w.variations[i].fallback.Some?
    ensures Exec(w, i, Defer(rest), fuel + 1) == (w, DeferSignal)
    ensures Exec(w, i, DeferIf(cond, rest), fuel + 1) == if cond then (w, DeferSignal) else Exec(w, i, rest, fuel)
    ensures Exec(w, i, DeferUnless(cond, rest), fuel + 1) == if cond then Exec(w, i, rest, fuel) else (w, DeferSignal)
  {
  }

  /** `defer_if` and `defer_unless` are exact complements when a fallback is
      set, and `can_defer()` holds exactly when `defer()` would signal. */
  lemma DeferHelpersAgree(v: Variation, cond: bool)
    ensures v.fallback.Some? ==> (SignalsDeferIf(v, cond) <==> !SignalsDeferUnless(v, cond))
    ensures v.fallback.None? ==> !SignalsDefer(v) && !SignalsDeferIf(v, cond) && !SignalsDeferUnless(v, cond)
    ensures CanDefer(v) <==> SignalsDefer(v)
  {
  }

  /** With no fallback, no computation of the variation ever ends in a defer
      signal, whatever it does. */
  lemma NoFallbackNoDeferSignal(w: World, i: nat, c: Calc, fuel: nat)
    requires WellFormed(w) && i < |w.variations| && w.variations[i].fallback.None?
    ensures Exec(w, i, c, fuel).1 != DeferSignal
  {
  }

  // ---------------------------------------------------------------------------
  // Cuts inside a computation

  /** `cut_if` inside a computation: a true expression ends it with a skip and
      leaves every counter as it was; a false one counts the cut on this
      variation's cutflow and carries on. */
  lemma CutInComputation(w: World, i: nat, expr: bool, cut: string, rest: Calc, fuel: nat)
    requires WellFormed(w) && i < |w.variations|
    ensures expr ==> Exec(w, i, CutIf(expr, cut, rest), fuel + 1) == (w, SkipSignal)
    ensures !expr ==>
      var v := w.variations[i];
      Exec(w, i, CutIf(expr, cut, rest), fuel + 1)
        == Exec(Update(w, i, v.(cutflow := Cutflows.CutIf(v.cutflow, false, cut).flow)), i, rest, fuel)
  {
    var v := w.variations[i];
    if expr {
      assert Update(w, i, v.(cutflow := v.cutflow)) == w;
    }
  }

  /** Replacing a variation's cutflow with a valid one keeps the world well formed. */
  lemma CutflowKeepsWellFormed(w: World, i: nat, flow: Cutflows.Cutflow)
    requires WellFormed(w) && i < |w.variations| && Cutflows.Valid(flow)
    ensures WellFormed(Update(w, i, w.variations[i].(cutflow := flow)))
  {
    var w1 := Update(w, i, w.variations[i].(cutflow := flow));
    forall k | 0 <= k < |w1.variations| ensures Fits(w1.variations[k], |w1.variations|, |w1.sources|) {
      assert Fits(w.variations[k], |w.variations|, |w.sources|);
    }
  }

  /** A second update of the same variation overrides the first. */
  lemma UpdateTwice(w: World, i: nat, a: Variation, b: Variation)
    requires i < |w.variations|
    ensures Update(Update(w, i, a), i, b) == Update(w, i, b)
  {
    assert w.variations[i := a][i := b] == w.variations[i := b];
  }

  /** A computation that opens with a fixed run of `cut_if` calls. */
  function CutChain(fails: seq<bool>, names: seq<string>, rest: Calc): Calc
    requires |fails| == |names|
    decreases |names|
  {
    if |names| == 0 then rest
    else CutIf(fails[0], names[0], CutChain(fails[1..], names[1..], rest))
  }

  /** The first cut of a chain that passes counts on this variation and hands
      the rest of the chain one less unit of fuel. */
  lemma ChainHead(w: World, i: nat, fails: seq<bool>, names: seq<string>, x: Value, fuel: nat)
    requires WellFormed(w) && i < |w.variations| && |fails| == |names| && |names| > 0 && !fails[0]
    ensures var v := w.variations[i];
      var w1 := Update(w, i, v.(cutflow := Cutflows.CutIf(v.cutflow, false, names[0]).flow));
      && WellFormed(w1)
      && Exec(w, i, CutChain(fails, names, Return(x)), fuel + |names| + 1)
         == Exec(w1, i, CutChain(fails[1..], names[1..], Return(x)), fuel + |names[1..]| + 1)
  {
    var v := w.variations[i];
    CutflowKeepsWellFormed(w, i, Cutflows.CutIf(v.cutflow, false, names[0]).flow);
    CutInComputation(w, i, fails[0], names[0], CutChain(fails[1..], names[1..], Return(x)), fuel + |names[1..]| + 1);
  }

  /** A computation made of a run of `cut_if` calls counts on the variation's
      cutflow exactly as the same chain of cuts applied to that cutflow: it
      ends with a skip iff some cut failed, returns its value otherwise, and
      in both cases changes nothing but that cutflow. */
  lemma {:induction false} ChainInComputation(w: World, i: nat, fails: seq<bool>, names: seq<string>,
                                              x: Value, fuel: nat)
    requires WellFormed(w) && i < |w.variations| && |fails| == |names|
    ensures var v := w.variations[i];
      var s := Cutflows.ApplyChain(v.cutflow, fails, names);
      Exec(w, i, CutChain(fails, names, Return(x)), fuel + |names| + 1)
        == (Update(w, i, v.(cutflow := s.flow)), if s.skipped then SkipSignal else Returned(x))
    decreases |names|, 1
  {
    var v := w.variations[i];
    if |names| == 0 {
      assert Update(w, i, v.(cutflow := v.cutflow)) == w;
    } else if fails[0] {
      assert Update(w, i, v.(cutflow := v.cutflow)) == w;
      CutInComputation(w, i, fails[0], names[0], CutChain(fails[1..], names[1..], Return(x)), fuel + |names|);
    } else {
      ChainPasses(w, i, fails, names, x, fuel);
    }
  }

  /** The inductive step of `ChainInComputation`: a passing first cut counts,
      and the rest of the chain runs on the counted cutflow. */
  lemma {:induction false} ChainPasses(w: World, i: nat, fails: seq<bool>, names: seq<string>,
                                       x: Value, fuel: nat)
    requires WellFormed(w) && i < |w.variations| && |fails| == |names| && |names| > 0 && !fails[0]
    ensures var v := w.variations[i];
      var s := Cutflows.ApplyChain(v.cutflow, fails, names);
      Exec(w, i, CutChain(fails, names, Return(x)), fuel + |names| + 1)
        == (Update(w, i, v.(cutflow := s.flow)), if s.skipped then SkipSignal else Returned(x))
    decreases |names|, 0
  {
    var v := w.variations[i];
    var step := Cutflows.CutIf(v.cutflow, false, names[0]);
    var w1 := Update(w, i, v.(cutflow := step.flow));
    var s := Cutflows.ApplyChain(step.flow, fails[1..], names[1..]);
    assert Cutflows.ApplyChain(v.cutflow, fails, names) == s;
    assert w1.variations[i].(cutflow := s.flow) == v.(cutflow := s.flow);
    UpdateTwice(w, i, v.(cutflow := step.flow), v.(cutflow := s.flow));
    ChainHead(w, i, fails, names, x, fuel);
    ChainInComputation(w1, i, fails[1..], names[1..], x, fuel);
  }

  // ---------------------------------------------------------------------------
  // Reset

  /** After `reset`, reading a registered calculable runs its computation
      again: the first thing the read does is invoke it. */
  lemma ReadAfterResetRecomputes(w: World, i: nat, name: string, fuel: nat)
    requires WellFormed(w) && i < |w.variations|
    requires name in w.variations[i].calculables && fuel > 0
    ensures var w' := Resolve(Reset(w, i), i, name, fuel).0;
      |w'.trace| > |w.trace| && w'.trace[|w.trace|] == Invocation(i, name)
  {
    var r := Reset(w, i);
    var w0 := Invoked(r, i, name);
    var w1 := Exec(w0, i, r.variations[i].calculables[name], fuel - 1).0;
    assert w0.trace <= w1.trace;
    var w' := Resolve(r, i, name, fuel).0;
    assert w1.trace <= w'.trace;
  }
}
