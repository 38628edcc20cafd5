/** The calculable resolution engine of an analysis variation: a fixed table
    of named computations, a per-record cache, a source of raw fields and an
    optional fallback variation that answers deferred computations.

    Objects are referred to by index: a variation's source is a slot of
    `World.sources` and its fallback a position in `World.variations`. The
    two exception signals of the implementation become tagged outcomes: a
    computation ends in `DeferSignal` (the fallback should answer),
    `SkipSignal` (a cut failed), `KeyErrorSignal` or `Raised`. */
module Variations {
  import opened Values
  import Cutflows

  /** Errors that abort a run. */
  datatype Error =
    | MissingAttribute(name: string)   // a field lookup on the source (or on no object) failed
    | CalculationError(message: string) // a computation raised an error of its own
    | UncaughtKeyError                  // a KeyError escaped a process function
    | UncaughtFallback                  // a defer signal escaped a process function
    | NotCallable                       // the variation has no process function
    | Exhausted                         // the fuel bound of the model was reached

  /** The body of a computation (a calculable or a process function), as a
      sequence of the engine operations it performs. Continuations receive
      the value read, so later steps may depend on it. */
  datatype Calc =
    | Return(result: Value)
    | Read(name: string, next: Value -> Calc)            // `self.name`
    | ReadSource(field: string, next: Value -> Calc)     // `getattr(self._source, field)`
    | Defer(rest: Calc)                                  // `self.defer()`
    | DeferIf(cond: bool, rest: Calc)                    // `self.defer_if(cond)`
    | DeferUnless(cond: bool, rest: Calc)                // `self.defer_unless(cond)`
    | CutIf(expr: bool, cut: string, rest: Calc)         // `self.cut_if(expr, cut)`
    | RaiseKeyError                                      // a KeyError raised by the body
    | Raise(message: string)                             // any other exception

  datatype Variation = Variation(
    name: string,
    calculables: map<string, Calc>,
    process: Option<Calc>,
    source: Option<nat>,
    fallback: Option<nat>,
    cache: map<string, Value>,
    valid: bool,
    cutflow: Cutflows.Cutflow)

  /** One invocation of a calculable's computation, recorded in the trace so
      that memoisation can be stated as "the computation did not run again". */
  datatype Invocation = Invocation(variation: nat, name: string)

  /** All variations, the current field views of all sources, and the trace
      of computations run so far. */
  datatype World = World(variations: seq<Variation>, sources: seq<Record>, trace: seq<Invocation>)

  /** What reading a name on a variation produces. */
  datatype Resolution = Resolved(value: Value) | Skipped | Failed(error: Error)

  /** How a computation ends. */
  datatype Outcome =
    | Returned(value: Value)
    | SkipSignal
    | DeferSignal
    | KeyErrorSignal
    | Raised(error: Error)

  // ---------------------------------------------------------------------------
  // Well-formedness

  /** References point at existing objects, only calculables are ever cached,
      and the cutflow keeps its invariant. */
  predicate Fits(v: Variation, variationCount: nat, sourceCount: nat) {
    && (v.fallback.Some? ==> v.fallback.value < variationCount)
    && (v.source.Some? ==> v.source.value < sourceCount)
    && v.cache.Keys <= v.calculables.Keys
    && Cutflows.Valid(v.cutflow)
  }

  predicate WellFormed(w: World) {
    forall k | 0 <= k < |w.variations| :: Fits(w.variations[k], |w.variations|, |w.sources|)
  }

  // ---------------------------------------------------------------------------
  // Construction and wiring

  const GetPrefix: string := "_get_"

  /** The calculable table discovered from a class's members: every method
      named `_get_xxx` registers the calculable `xxx`. */
  predicate IsGetter(m: string) {
    |m| >= |GetPrefix| && m[..|GetPrefix|] == GetPrefix
  }

  function Discover(methods: map<string, Calc>): (table: map<string, Calc>)
    ensures forall n :: n in table <==> GetPrefix + n in methods
    ensures forall n | n in table :: table[n] == methods[GetPrefix + n]
  {
    var names := set m | m in methods && IsGetter(m) :: m[|GetPrefix|..];
    assert forall m | m in methods && IsGetter(m) :: GetPrefix + m[|GetPrefix|..] == m;
    assert forall n :: GetPrefix + n in methods ==> (GetPrefix + n)[|GetPrefix|..] == n;
    map n | n in names :: methods[GetPrefix + n]
  }

  /** A freshly constructed variation: nothing cached, not valid, no cuts. */
  function NewVariation(name: string, methods: map<string, Calc>, process: Option<Calc>,
                        source: Option<nat>, fallback: Option<nat>): (v: Variation)
    ensures forall n :: n in v.calculables <==> GetPrefix + n in methods
    ensures forall n | n in v.calculables :: v.calculables[n] == methods[GetPrefix + n]
    ensures v.calculables == Discover(methods) && v.name == name && v.process == process
    ensures |v.cache| == 0 && !v.valid
    ensures Cutflows.Valid(v.cutflow) && forall n :: Cutflows.Count(v.cutflow, n) == 0
    ensures v.source == source && v.fallback == fallback
  {
    Variation(name, Discover(methods), process, source, fallback, map[], false, Cutflows.Empty())
  }

  function Update(w: World, i: nat, v: Variation): World
    requires i < |w.variations|
  {
    w.(variations := w.variations[i := v])
  }

  /** `set_source`: always rebinds the source; nothing else changes. */
  function SetSource(w: World, i: nat, s: Option<nat>): (w': World)
    requires i < |w.variations|
    ensures |w'.variations| == |w.variations| && w'.sources == w.sources && w'.trace == w.trace
    ensures w'.variations[i] == w.variations[i].(source := s)
    ensures forall k | 0 <= k < |w.variations| && k != i :: w'.variations[k] == w.variations[k]
  {
    Update(w, i, w.variations[i].(source := s))
  }

  /** `set_fallback`: making a variation its own fallback is ignored; any
      other argument, absent included, replaces the fallback. */
  function SetFallback(w: World, i: nat, f: Option<nat>): (w': World)
    requires i < |w.variations|
    ensures |w'.variations| == |w.variations| && w'.sources == w.sources && w'.trace == w.trace
    ensures f == Some(i) ==> w' == w
    ensures f != Some(i) ==> w'.variations[i] == w.variations[i].(fallback := f)
    ensures forall k | 0 <= k < |w.variations| && k != i :: w'.variations[k] == w.variations[k]
  {
    if f == Some(i) then w else Update(w, i, w.variations[i].(fallback := f))
  }

  function SetValid(w: World, i: nat, valid: bool): (w': World)
    requires i < |w.variations|
    ensures |w'.variations| == |w.variations| && w'.sources == w.sources && w'.trace == w.trace
    ensures w'.variations[i] == w.variations[i].(valid := valid)
    ensures forall k | 0 <= k < |w.variations| && k != i :: w'.variations[k] == w.variations[k]
  {
    Update(w, i, w.variations[i].(valid := valid))
  }

  /** `reset`: drops the cached value of every calculable and marks the
      variation invalid. Because only calculables are ever cached, the cache
      ends up empty; source, fallback, table and cutflow are untouched. */
  function Reset(w: World, i: nat): (w': World)
    requires WellFormed(w) && i < |w.variations|
    ensures WellFormed(w')
    ensures |w'.variations| == |w.variations| && w'.sources == w.sources && w'.trace == w.trace
    ensures w'.variations[i] == w.variations[i].(cache := map[], valid := false)
    ensures forall k | 0 <= k < |w.variations| && k != i :: w'.variations[k] == w.variations[k]
  {
    var v := w.variations[i];
    var cleared := v.cache - v.calculables.Keys;
    assert cleared == map[] by {
      assert Fits(v, |w.variations|, |w.sources|);
      assert forall n | n in v.cache :: n in v.calculables.Keys;
    }
    Update(w, i, v.(cache := cleared, valid := false))
  }

  // ---------------------------------------------------------------------------
  // Defer helpers, as seen from inside a computation of `v`

  /** `defer()` signals only when a fallback is set. */
  predicate SignalsDefer(v: Variation) {
    v.fallback.Some?
  }

  /** `defer_if(cond)` signals when a fallback is set and `cond` holds. */
  predicate SignalsDeferIf(v: Variation, cond: bool) {
    v.fallback.Some? && cond
  }

  /** `defer_unless(cond)` signals when a fallback is set and `cond` fails. */
  predicate SignalsDeferUnless(v: Variation, cond: bool) {
    v.fallback.Some? && !cond
  }

  /** `can_defer()`: whether a fallback is set. */
  predicate CanDefer(v: Variation) {
    v.fallback.Some?
  }

  // ---------------------------------------------------------------------------
  // Resolution

  /** Caches only grow, and what was cached keeps its value. */
  ghost predicate Extends(c: map<string, Value>, c': map<string, Value>) {
    c.Keys <= c'.Keys && forall n | n in c :: c'[n] == c[n]
  }

  /** Everything but the cache and the cutflow. */
  ghost predicate SameWiring(v: Variation, v': Variation) {
    && v'.name == v.name && v'.calculables == v.calculables && v'.process == v.process
    && v'.source == v.source && v'.fallback == v.fallback && v'.valid == v.valid
  }

  /** A computation that was run for a name not cached when it started. */
  ghost predicate FreshIn(w: World, inv: Invocation) {
    inv.variation < |w.variations| && inv.name !in w.variations[inv.variation].cache
  }

  /** Variation `k` keeps its wiring and its cached entries from `w` to `w'`. */
  ghost predicate EvolvesAt(w: World, w': World, k: nat) {
    k < |w.variations| && k < |w'.variations| ==>
      SameWiring(w.variations[k], w'.variations[k]) && Extends(w.variations[k].cache, w'.variations[k].cache)
  }

  /** Entry `t` of the trace, if added after `w`, is a fresh invocation. */
  ghost predicate FreshAt(w: World, w': World, t: nat) {
    |w.trace| <= t < |w'.trace| ==> FreshIn(w, w'.trace[t])
  }

  /** What resolution may change: caches grow, cutflows advance, the trace is
      extended by computations of names that were not cached before. */
  ghost predicate Evolves(w: World, w': World) {
    && |w'.variations| == |w.variations|
    && w'.sources == w.sources
    && w.trace <= w'.trace
    && (forall k: nat {:trigger EvolvesAt(w, w', k)} :: EvolvesAt(w, w', k))
    && (forall t: nat {:trigger FreshAt(w, w', t)} :: FreshAt(w, w', t))
  }

  lemma EvolvesTransitive(a: World, b: World, c: World)
    requires Evolves(a, b) && Evolves(b, c)
    ensures Evolves(a, c)
  {
    forall k: nat ensures EvolvesAt(a, c, k) {
      assert EvolvesAt(a, b, k) && EvolvesAt(b, c, k);
    }
    forall t: nat ensures FreshAt(a, c, t) {
      if |a.trace| <= t < |c.trace| {
        if t < |b.trace| {
          assert FreshAt(a, b, t);
          assert c.trace[t] == b.trace[t];
        } else {
          assert FreshAt(b, c, t);
          assert EvolvesAt(a, b, c.trace[t].variation);
        }
      }
    }
  }

  /** A world with only its trace extended by a fresh invocation. */
  lemma InvokedEvolves(w: World, i: nat, name: string)
    requires i < |w.variations| && name !in w.variations[i].cache
    ensures Evolves(w, Invoked(w, i, name))
  {
    var w0 := Invoked(w, i, name);
    forall k: nat ensures EvolvesAt(w, w0, k) {}
    forall t: nat ensures FreshAt(w, w0, t) {}
  }

  /** A world with only variation `i`'s cutflow changed. */
  lemma CutflowEvolves(w: World, i: nat, flow: Cutflows.Cutflow)
    requires i < |w.variations|
    ensures Evolves(w, Update(w, i, w.variations[i].(cutflow := flow)))
  {
    var w1 := Update(w, i, w.variations[i].(cutflow := flow));
    forall k: nat ensures EvolvesAt(w, w1, k) {}
    forall t: nat ensures FreshAt(w, w1, t) {}
  }

  /** Looks a field up on the variation's source, `getattr(self._source, name)`. */
  function LookupSource(w: World, i: nat, name: string): (r: Resolution)
    requires WellFormed(w) && i < |w.variations|
    ensures r.Resolved? <==> w.variations[i].source.Some? && name in w.sources[w.variations[i].source.value]
    ensures r.Resolved? ==> r.value == w.sources[w.variations[i].source.value][name]
    ensures !r.Resolved? ==> r == Failed(MissingAttribute(name))
  {
    assert Fits(w.variations[i], |w.variations|, |w.sources|);
    match w.variations[i].source
    case None => Failed(MissingAttribute(name))
    case Some(s) => if name in w.sources[s] then Resolved(w.sources[s][name]) else Failed(MissingAttribute(name))
  }

  /** Caches `x` as the value of `name` on variation `i`. */
  function Store(w: World, i: nat, name: string, x: Value): World
    requires i < |w.variations|
  {
    Update(w, i, w.variations[i].(cache := w.variations[i].cache[name := x]))
  }

  lemma StoreEvolves(w: World, w1: World, i: nat, name: string, x: Value)
    requires WellFormed(w1) && Evolves(w, w1) && i < |w.variations|
    requires name !in w.variations[i].cache && name in w1.variations[i].calculables
    ensures WellFormed(Store(w1, i, name, x)) && Evolves(w, Store(w1, i, name, x))
  {
    var w2 := Store(w1, i, name, x);
    assert Fits(w1.variations[i], |w1.variations|, |w1.sources|);
    forall k: nat ensures EvolvesAt(w, w2, k) {
      assert EvolvesAt(w, w1, k);
    }
    forall t: nat ensures FreshAt(w, w2, t) {
      assert FreshAt(w, w1, t);
    }
  }

  /** Records that the computation of `name` on variation `i` starts. */
  function Invoked(w: World, i: nat, name: string): World {
    w.(trace := w.trace + [Invocation(i, name)])
  }

  /** Reading `name` on variation `i` (`__getattr__` after the ordinary
      attribute lookup): a cached value is returned as is; a registered
      calculable is computed, and its value cached and returned; a computation
      that raises KeyError falls through to the source; one that defers is
      answered by the fallback without caching locally; any other name is
      looked up on the source. `fuel` bounds the nesting of reads. */
  function Resolve(w: World, i: nat, name: string, fuel: nat): (res: (World, Resolution))
    requires WellFormed(w) && i < |w.variations|
    ensures WellFormed(res.0) && Evolves(w, res.0)
    decreases fuel, 2
  {
    var v := w.variations[i];
    if name in v.cache then (w, Resolved(v.cache[name]))
    else if name !in v.calculables then (w, LookupSource(w, i, name))
    else if fuel == 0 then (w, Failed(Exhausted))
    else
      var w0 := Invoked(w, i, name);
      InvokedEvolves(w, i, name);
      var (w1, o) := Exec(w0, i, v.calculables[name], fuel - 1);
      EvolvesTransitive(w, w0, w1);
      assert EvolvesAt(w, w1, i);
      match o
      case Returned(x) =>
        StoreEvolves(w, w1, i, name, x);
        (Store(w1, i, name, x), Resolved(x))
      case KeyErrorSignal => (w1, LookupSource(w1, i, name))
      case DeferSignal =>
        (match w1.variations[i].fallback
         case None => (w1, Failed(MissingAttribute(name)))
         case Some(f) =>
           assert Fits(w1.variations[i], |w1.variations|, |w1.sources|);
           var (w2, r) := Resolve(w1, f, name, fuel - 1);
           EvolvesTransitive(w, w1, w2);
           (w2, r))
      case SkipSignal => (w1, Skipped)
      case Raised(e) => (w1, Failed(e))
  }

  /** Runs computation `c` as variation `i` (its `self`). */
  function Exec(w: World, i: nat, c: Calc, fuel: nat): (res: (World, Outcome))
    requires WellFormed(w) && i < |w.variations|
    ensures WellFormed(res.0) && Evolves(w, res.0)
    ensures res.1.DeferSignal? ==> w.variations[i].fallback.Some?
    decreases fuel, 1
  {
    if fuel == 0 then (w, Raised(Exhausted))
    else
      var v := w.variations[i];
      match c
      case Return(x) => (w, Returned(x))
      case Read(n, next) => ExecRead(w, i, n, next, fuel)
      case ReadSource(n, next) =>
        (match LookupSource(w, i, n)
         case Resolved(x) => Exec(w, i, next(x), fuel - 1)
         case Skipped => (w, SkipSignal)
         case Failed(e) => (w, Raised(e)))
      case Defer(rest) =>
        if SignalsDefer(v) then (w, DeferSignal) else Exec(w, i, rest, fuel - 1)
      case DeferIf(cond, rest) =>
        if SignalsDeferIf(v, cond) then (w, DeferSignal) else Exec(w, i, rest, fuel - 1)
      case DeferUnless(cond, rest) =>
        if SignalsDeferUnless(v, cond) then (w, DeferSignal) else Exec(w, i, rest, fuel - 1)
      case CutIf(expr, cut, rest) => ExecCut(w, i, expr, cut, rest, fuel)
      case RaiseKeyError => (w, KeyErrorSignal)
      case Raise(m) => (w, Raised(CalculationError(m)))
  }

  /** `self.name` inside a computation: a skip or an error of the read ends
      the computation with the same signal. */
  function ExecRead(w: World, i: nat, name: string, next: Value -> Calc, fuel: nat): (res: (World, Outcome))
    requires WellFormed(w) && i < |w.variations| && fuel > 0
    ensures WellFormed(res.0) && Evolves(w, res.0)
    ensures res.1.DeferSignal? ==> w.variations[i].fallback.Some?
    decreases fuel, 0
  {
    var (w1, r) := Resolve(w, i, name, fuel - 1);
    match r
    case Resolved(x) =>
      var (w2, o) := Exec(w1, i, next(x), fuel - 1);
      EvolvesTransitive(w, w1, w2);
      assert EvolvesAt(w, w1, i);
      (w2, o)
    case Skipped => (w1, SkipSignal)
    case Failed(e) => (w1, Raised(e))
  }

  /** `self.cut_if(expr, cut)` inside a computation. */
  function ExecCut(w: World, i: nat, expr: bool, cut: string, rest: Calc, fuel: nat): (res: (World, Outcome))
    requires WellFormed(w) && i < |w.variations| && fuel > 0
    ensures WellFormed(res.0) && Evolves(w, res.0)
    ensures res.1.DeferSignal? ==> w.variations[i].fallback.Some?
    decreases fuel, 0
  {
    var v := w.variations[i];
    var step := Cutflows.CutIf(v.cutflow, expr, cut);
    var w1 := Update(w, i, v.(cutflow := step.flow));
    assert Fits(v, |w.variations|, |w.sources|);
    CutflowEvolves(w, i, step.flow);
    if step.skipped then (w1, SkipSignal)
    else
      var (w2, o) := Exec(w1, i, rest, fuel - 1);
      EvolvesTransitive(w, w1, w2);
      assert EvolvesAt(w, w1, i);
      (w2, o)
  }
}
